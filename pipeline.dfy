/** The executor front end of exec_commands and start_process (shell.c:96-201):
    builtin dispatch, splitting the token vector into stages at "|" tokens in
    place, and the plan of pipes and launches that wires the stages together.
    Processes and descriptors are abstract: a launch is a step of a log that
    names its input and output endpoints and the slot where its argument
    vector begins. */
module Pipeline {
  import opened Wrappers
  import opened Argv
  import Redirection

  const PIPE := "|"

  // ---------------------------------------------------------------------------
  // Stages

  /** The stages of a token list: the runs between "|" tokens, in order. */
  function Split(ts: seq<string>): (stages: seq<seq<string>>)
    ensures |stages| >= 1
  {
    if ts == [] then [[]]
    else
      var rest := Split(ts[1..]);
      if ts[0] == PIPE then [[]] + rest else [[ts[0]] + rest[0]] + rest[1..]
  }

  /** The stages put back together with a "|" token between neighbours. */
  function Join(stages: seq<seq<string>>): seq<string>
    requires |stages| >= 1
  {
    if |stages| == 1 then stages[0] else stages[0] + [PIPE] + Join(stages[1..])
  }

  /** There is one stage more than there are "|" tokens, and no stage holds one. */
  lemma {:induction false} SplitCount(ts: seq<string>)
    ensures |Split(ts)| == multiset(ts)[PIPE] + 1
    ensures forall st :: st in Split(ts) ==> PIPE !in st
  {
    if ts != [] {
      SplitCount(ts[1..]);
      assert ts == [ts[0]] + ts[1..];
      assert multiset(ts) == multiset([ts[0]]) + multiset(ts[1..]);
      var rest := Split(ts[1..]);
      if ts[0] != PIPE {
        assert rest[0] in rest;
        forall st | st in Split(ts) ensures PIPE !in st {
          if st != [ts[0]] + rest[0] {
            assert st in rest[1..];
          }
        }
      }
    }
  }

  /** Joining the stages gives back the token list: no token is lost,
      added or moved. */
  lemma {:induction false} JoinSplit(ts: seq<string>)
    ensures Join(Split(ts)) == ts
  {
    if ts != [] {
      JoinSplit(ts[1..]);
      var rest := Split(ts[1..]);
      if ts[0] == PIPE {
        assert ([[]] + rest)[1..] == rest;
      } else {
        var st := [[ts[0]] + rest[0]] + rest[1..];
        if |rest| > 1 {
          assert st[1..] == rest[1..];
        }
      }
    }
  }

  /** A run without "|" followed by a "|" is a stage of its own. */
  lemma {:induction false} SplitRun(w: seq<string>, tail: seq<string>)
    requires PIPE !in w
    ensures Split(w + tail) == (if tail == [] then [w] else if tail[0] == PIPE then [w] + Split(tail[1..]) else [w + Split(tail)[0]] + Split(tail)[1..])
  {
    if w != [] {
      assert (w + tail)[1..] == w[1..] + tail;
      assert w[0] in w;
      SplitRun(w[1..], tail);
      var rest := Split(w[1..] + tail);
      assert Split(w + tail) == [[w[0]] + rest[0]] + rest[1..];
      assert [w[0]] + w[1..] == w;
      if tail == [] {
        assert rest == [w[1..]];
      } else if tail[0] == PIPE {
        assert rest == [w[1..]] + Split(tail[1..]);
        assert rest[1..] == Split(tail[1..]);
      } else {
        assert rest == [w[1..] + Split(tail)[0]] + Split(tail)[1..];
        assert rest[1..] == Split(tail)[1..];
        assert [w[0]] + (w[1..] + Split(tail)[0]) == w + Split(tail)[0];
      }
    } else {
      assert w + tail == tail;
      if tail != [] && tail[0] != PIPE {
        assert [] + Split(tail)[0] == Split(tail)[0];
        assert [Split(tail)[0]] + Split(tail)[1..] == Split(tail);
      }
    }
  }

  /** Splitting what Join made gives back the stages, when no stage holds a
      "|" token of its own. */
  lemma {:induction false} SplitJoin(stages: seq<seq<string>>)
    requires |stages| >= 1
    requires forall st :: st in stages ==> PIPE !in st
    ensures Split(Join(stages)) == stages
  {
    if |stages| == 1 {
      SplitRun(stages[0], []);
      assert stages[0] + [] == stages[0];
    } else {
      assert stages[0] in stages;
      forall st | st in stages[1..] ensures PIPE !in st {
        assert st in stages;
      }
      SplitJoin(stages[1..]);
      assert stages[0] + [PIPE] + Join(stages[1..]) == stages[0] + ([PIPE] + Join(stages[1..]));
      SplitRun(stages[0], [PIPE] + Join(stages[1..]));
      assert ([PIPE] + Join(stages[1..]))[1..] == Join(stages[1..]);
      assert [stages[0]] + stages[1..] == stages;
    }
  }

  /** The pipe example: `a | b | c` has the three stages `a`, `b` and `c`. */
  lemma ThreeStageExample()
    ensures Split(["a", "|", "b", "|", "c"]) == [["a"], ["b"], ["c"]]
  {
    assert ["c"][1..] == [];
    assert Split([]) == [[]];
    assert ["c"] + [] == ["c"];
    assert Split(["c"]) == [["c"]];
    assert ["|", "c"][1..] == ["c"];
    assert Split(["|", "c"]) == [[], ["c"]];
    assert ["b", "|", "c"][1..] == ["|", "c"];
    assert ["b"] + [] == ["b"];
    assert Split(["b", "|", "c"]) == [["b"], ["c"]];
    assert ["|", "b", "|", "c"][1..] == ["b", "|", "c"];
    assert Split(["|", "b", "|", "c"]) == [[], ["b"], ["c"]];
    assert ["a", "|", "b", "|", "c"][1..] == ["|", "b", "|", "c"];
    assert ["a"] + [] == ["a"];
    assert [[], ["b"], ["c"]][1..] == [["b"], ["c"]];
  }

  // ---------------------------------------------------------------------------
  // The token array after the "|" tokens are overwritten with NULL

  /** `m` holds `ts` with every "|" replaced by NULL, and a NULL after it. */
  ghost predicate MarkedFrom(m: seq<Option<string>>, ts: seq<string>)
  {
    && |ts| < |m|
    && (forall k :: 0 <= k < |ts| ==> m[k] == if ts[k] == PIPE then None else Some(ts[k]))
    && m[|ts|] == None
  }

  /** Slot at which stage i begins once the "|" tokens are NULLs: each
      earlier stage takes its length plus one slot for its NULL. */
  function Start(stages: seq<seq<string>>, i: nat): nat
    requires i < |stages|
  {
    if i == 0 then 0 else |stages[0]| + 1 + Start(stages[1..], i - 1)
  }

  /** The slots at which the stages begin, in order. */
  function Starts(stages: seq<seq<string>>): (r: seq<nat>)
    ensures |r| == |stages|
  {
    seq(|stages|, i requires 0 <= i < |stages| => Start(stages, i))
  }

  /** Stage i + 1 begins right after stage i's NULL. */
  lemma {:induction false} StartNext(stages: seq<seq<string>>, i: nat)
    requires i + 1 < |stages|
    ensures Start(stages, i + 1) == Start(stages, i) + |stages[i]| + 1
  {
    if i > 0 {
      StartNext(stages[1..], i - 1);
    }
  }

  lemma MarkedTail(m: seq<Option<string>>, ts: seq<string>)
    requires MarkedFrom(m, ts) && ts != []
    ensures MarkedFrom(m[1..], ts[1..])
  {
    forall k | 0 <= k < |ts| - 1
      ensures m[1..][k] == if ts[1..][k] == PIPE then None else Some(ts[1..][k])
    {
      assert m[k + 1] == if ts[k + 1] == PIPE then None else Some(ts[k + 1]);
    }
  }

  /** The start slots of the stages of a list that begins with a "|" token,
      and of one that begins with a word. */
  lemma StartCons(t: string, rest: seq<seq<string>>, i: nat)
    requires |rest| >= 1 && i < |rest|
    ensures Start([[]] + rest, i + 1) == 1 + Start(rest, i)
    ensures i > 0 ==> Start([[t] + rest[0]] + rest[1..], i) == 1 + Start(rest, i)
  {
    assert ([[]] + rest)[1..] == rest;
    if i > 0 {
      assert ([[t] + rest[0]] + rest[1..])[1..] == rest[1..];
    }
  }

  /** Once the "|" tokens are NULLs, stage i of the token list is the
      NULL-terminated vector that begins at its start slot. */
  lemma {:induction false} MarkedLayout(m: seq<Option<string>>, ts: seq<string>, i: nat)
    requires MarkedFrom(m, ts) && i < |Split(ts)|
    ensures HoldsArgv(m, Start(Split(ts), i), Split(ts)[i])
  {
    if ts != [] {
      var rest := Split(ts[1..]);
      MarkedTail(m, ts);
      if ts[0] == PIPE {
        assert Split(ts) == [[]] + rest;
        if i > 0 {
          MarkedLayout(m[1..], ts[1..], i - 1);
          HoldsShift(m, Start(rest, i - 1), rest[i - 1]);
          StartCons(ts[0], rest, i - 1);
        }
      } else if i == 0 {
        assert Split(ts)[0] == [ts[0]] + rest[0];
        MarkedLayout(m[1..], ts[1..], 0);
        HoldsCons(m, ts[0], rest[0]);
      } else {
        assert Split(ts) == [[ts[0]] + rest[0]] + rest[1..];
        MarkedLayout(m[1..], ts[1..], i);
        HoldsShift(m, Start(rest, i), rest[i]);
        StartCons(ts[0], rest, i);
      }
    }
  }

  // ---------------------------------------------------------------------------
  // The plan of pipes and launches

  /** A descriptor a stage can be wired to: the shell's own standard input
      or output, or one end of the pipe made in iteration `pipe` of the loop. */
  datatype Endpoint = Stdin | Stdout | ReadEnd(pipe: nat) | WriteEnd(pipe: nat)

  /** What the parent does, in order: make a pipe (shell.c:135), launch a
      stage whose argument vector begins at slot `argv` and wait for it
      (start_process, shell.c:141 and 155), close its copy of a write end (shell.c:143). */
  datatype Step = OpenPipe(pipe: nat) | Launch(input: Endpoint, output: Endpoint, argv: nat) | CloseWriteEnd(pipe: nat)

  /** The endpoint stage i reads: standard input for the first stage, and
      afterwards the read end of the pipe the previous iteration made
      (shell.c:130, 144). */
  function InputOf(i: nat): (e: Endpoint)
    ensures e == Stdin <==> i == 0
  {
    if i == 0 then Stdin else ReadEnd(i - 1)
  }

  /** The endpoint stage i of n writes: the write end of its own pipe, or
      standard output for the last stage (shell.c:141, 155). */
  function OutputOf(n: nat, i: nat): (e: Endpoint)
    requires i < n
    ensures e == Stdout <==> i == n - 1
  {
    if i == n - 1 then Stdout else WriteEnd(i)
  }

  /** The steps of the first i iterations of the loop at shell.c:133-153. */
  function Rounds(starts: seq<nat>, i: nat): seq<Step>
    requires i <= |starts|
  {
    if i == 0 then []
    else Rounds(starts, i - 1) + [OpenPipe(i - 1), Launch(InputOf(i - 1), WriteEnd(i - 1), starts[i - 1]), CloseWriteEnd(i - 1)]
  }

  /** Everything the parent does for a pipeline whose stages begin at the
      slots `starts`: one round per stage but the last, then the last launch. */
  function Plan(starts: seq<nat>): seq<Step>
    requires |starts| >= 1
  {
    Rounds(starts, |starts| - 1) + [Launch(InputOf(|starts| - 1), Stdout, starts[|starts| - 1])]
  }

  /** The steps of iteration j: make pipe j, launch stage j from the previous
      pipe (or standard input) into pipe j, close pipe j's write end. */
  lemma {:induction false} RoundsAt(starts: seq<nat>, i: nat, j: nat)
    requires j < i <= |starts|
    ensures |Rounds(starts, i)| == 3 * i
    ensures Rounds(starts, i)[3 * j] == OpenPipe(j)
    ensures Rounds(starts, i)[3 * j + 1] == Launch(InputOf(j), WriteEnd(j), starts[j])
    ensures Rounds(starts, i)[3 * j + 2] == CloseWriteEnd(j)
  {
    RoundsLength(starts, i - 1);
    if j < i - 1 {
      RoundsAt(starts, i - 1, j);
    }
  }

  lemma {:induction false} RoundsLength(starts: seq<nat>, i: nat)
    requires i <= |starts|
    ensures |Rounds(starts, i)| == 3 * i
  {
    if i > 0 {
      RoundsLength(starts, i - 1);
    }
  }

  /** The whole plan, step by step: for a pipeline of n stages there are
      3(n - 1) + 1 steps; pipe j is made, then stage j is launched writing
      into it, then the parent closes its write end before anything else;
      stage j + 1 is the one that reads pipe j; the last stage writes to
      standard output. */
  lemma PlanAt(starts: seq<nat>)
    requires |starts| >= 1
    ensures var n, p := |starts|, Plan(starts);
      && |p| == 3 * (n - 1) + 1
      && (forall j :: 0 <= j < n - 1 ==>
            && p[3 * j] == OpenPipe(j)
            && p[3 * j + 1] == Launch(InputOf(j), OutputOf(n, j), starts[j])
            && p[3 * j + 2] == CloseWriteEnd(j))
      && p[3 * (n - 1)] == Launch(InputOf(n - 1), OutputOf(n, n - 1), starts[n - 1])
  {
    RoundsLength(starts, |starts| - 1);
    forall j | 0 <= j < |starts| - 1
      ensures Plan(starts)[3 * j] == OpenPipe(j)
      ensures Plan(starts)[3 * j + 1] == Launch(InputOf(j), OutputOf(|starts|, j), starts[j])
      ensures Plan(starts)[3 * j + 2] == CloseWriteEnd(j)
    {
      PlanRound(starts, j);
    }
  }

  /** Round j of the plan, read off the whole log. */
  lemma PlanRound(starts: seq<nat>, j: nat)
    requires j < |starts| - 1
    ensures |Plan(starts)| == 3 * (|starts| - 1) + 1
    ensures Plan(starts)[3 * j] == OpenPipe(j)
    ensures Plan(starts)[3 * j + 1] == Launch(InputOf(j), OutputOf(|starts|, j), starts[j])
    ensures Plan(starts)[3 * j + 2] == CloseWriteEnd(j)
  {
    var r := Rounds(starts, |starts| - 1);
    RoundsAt(starts, |starts| - 1, j);
    assert |Plan(starts)| == |r| + 1;
    assert Plan(starts)[..|r|] == r;
  }

  /** The pipes a log makes, in order. */
  function PipesMade(steps: seq<Step>): seq<nat>
  {
    if steps == [] then []
    else PipesMade(steps[..|steps| - 1]) + (if steps[|steps| - 1].OpenPipe? then [steps[|steps| - 1].pipe] else [])
  }

  /** The launches of a log, in order. */
  function Launches(steps: seq<Step>): seq<Step>
  {
    if steps == [] then []
    else Launches(steps[..|steps| - 1]) + (if steps[|steps| - 1].Launch? then [steps[|steps| - 1]] else [])
  }

  /** The descriptors the parent holds after a log: both ends of every pipe
      it made, less the write ends it closed. */
  function Held(steps: seq<Step>): set<Endpoint>
  {
    if steps == [] then {}
    else
      var h := Held(steps[..|steps| - 1]);
      match steps[|steps| - 1]
      case OpenPipe(p) => h + {ReadEnd(p), WriteEnd(p)}
      case CloseWriteEnd(p) => h - {WriteEnd(p)}
      case Launch(_, _, _) => h
  }

  /** The three steps of round i, appended to the rounds before it. */
  lemma RoundsSnoc(starts: seq<nat>, i: nat)
    requires 0 < i <= |starts|
    ensures var r := Rounds(starts, i - 1);
      var r1 := r + [OpenPipe(i - 1)];
      var r2 := r1 + [Launch(InputOf(i - 1), WriteEnd(i - 1), starts[i - 1])];
      var r3 := r2 + [CloseWriteEnd(i - 1)];
      && Rounds(starts, i) == r3
      && r1[..|r1| - 1] == r && r2[..|r2| - 1] == r1 && r3[..|r3| - 1] == r2
  {
  }

  lemma {:induction false} RoundsPipes(starts: seq<nat>, i: nat)
    requires i <= |starts|
    ensures |PipesMade(Rounds(starts, i))| == i
    ensures forall j :: 0 <= j < i ==> PipesMade(Rounds(starts, i))[j] == j
  {
    if i > 0 {
      RoundsPipes(starts, i - 1);
      RoundsSnoc(starts, i);
      var r := Rounds(starts, i - 1);
      var r1 := r + [OpenPipe(i - 1)];
      var r2 := r1 + [Launch(InputOf(i - 1), WriteEnd(i - 1), starts[i - 1])];
      assert PipesMade(r1) == PipesMade(r) + [i - 1];
      assert PipesMade(r2) == PipesMade(r1) + [];
      assert PipesMade(r2 + [CloseWriteEnd(i - 1)]) == PipesMade(r2) + [];
    }
  }

  lemma {:induction false} RoundsLaunches(starts: seq<nat>, i: nat)
    requires i <= |starts|
    ensures |Launches(Rounds(starts, i))| == i
    ensures forall j :: 0 <= j < i ==> Launches(Rounds(starts, i))[j] == Launch(InputOf(j), WriteEnd(j), starts[j])
  {
    if i > 0 {
      RoundsLaunches(starts, i - 1);
      RoundsSnoc(starts, i);
      var r := Rounds(starts, i - 1);
      var l := Launch(InputOf(i - 1), WriteEnd(i - 1), starts[i - 1]);
      var r1 := r + [OpenPipe(i - 1)];
      var r2 := r1 + [l];
      assert Launches(r1) == Launches(r) + [];
      assert Launches(r2) == Launches(r1) + [l];
      assert Launches(r2 + [CloseWriteEnd(i - 1)]) == Launches(r2) + [];

    }
  }

  lemma {:induction false} RoundsHeld(starts: seq<nat>, i: nat)
    requires i <= |starts|
    ensures Held(Rounds(starts, i)) == set p | 0 <= p < i :: ReadEnd(p)
  {
    if i > 0 {
      RoundsHeld(starts, i - 1);
      RoundsSnoc(starts, i);
      var r := Rounds(starts, i - 1);
      var h := Held(r);
      var r1 := r + [OpenPipe(i - 1)];
      var r2 := r1 + [Launch(InputOf(i - 1), WriteEnd(i - 1), starts[i - 1])];
      assert WriteEnd(i - 1) !in h;
      assert Held(r1) == h + {ReadEnd(i - 1), WriteEnd(i - 1)};
      assert Held(r2) == Held(r1);
      assert Held(r2 + [CloseWriteEnd(i - 1)]) == Held(r2) - {WriteEnd(i - 1)};
      assert h + {ReadEnd(i - 1)} == set p | 0 <= p < i :: ReadEnd(p);
    }
  }

  /** A pipeline of n stages makes exactly n - 1 pipes, numbered in order,
      and launches each stage once, in order, wired stage to stage. When it
      is done the parent has closed every write end but still holds the read
      end of every pipe: the loop never closes those. */
  lemma PlanSummary(starts: seq<nat>)
    requires |starts| >= 1
    ensures var n, p := |starts|, Plan(starts);
      && |PipesMade(p)| == n - 1
      && (forall j :: 0 <= j < n - 1 ==> PipesMade(p)[j] == j)
      && |Launches(p)| == n
      && (forall j :: 0 <= j < n ==> Launches(p)[j] == Launch(InputOf(j), OutputOf(n, j), starts[j]))
      && Held(p) == set q | 0 <= q < n - 1 :: ReadEnd(q)
  {
    var n := |starts|;
    RoundsPipes(starts, n - 1);
    RoundsLaunches(starts, n - 1);
    RoundsHeld(starts, n - 1);
    var r := Rounds(starts, n - 1);
    var p := Plan(starts);
    assert p[..|p| - 1] == r;
  }

  // ---------------------------------------------------------------------------
  // exec_commands

  /** What one command line makes the shell do. */
  datatype Action =
    | ChangeDir(path: Option<string>)
    | PlayBreakout
    | ExitShell
    | RunPipeline(steps: seq<Step>)

  /** The builtins recognised ahead of any pipeline, in the order they are
      tested (shell.c:99-112); `cd` takes its second slot, NULL if missing. */
  function Builtin(words: seq<string>): (a: Option<Action>)
    requires |words| >= 1
    ensures a.Some? <==> words[0] in {"cd", "breakout", "exit"}
    ensures a.Some? ==> !a.value.RunPipeline?
    ensures a.Some? && a.value.ChangeDir? ==> a.value.path.Some? == (|words| > 1)
  {
    if words[0] == "cd" then Some(ChangeDir(if |words| > 1 then Some(words[1]) else None))
    else if words[0] == "breakout" then Some(PlayBreakout)
    else if words[0] == "exit" then Some(ExitShell)
    else None
  }

  /** The first loop of shell.c:114-126: overwrite every "|" with NULL and
      count the stages. */
  method MarkStages(tokens: array<Option<string>>, ghost words: seq<string>) returns (numProcesses: nat)
    requires HoldsArgv(tokens[..], 0, words)
    modifies tokens
    ensures numProcesses == multiset(words)[PIPE] + 1
    ensures MarkedFrom(tokens[..], words)
    ensures forall k :: |words| < k < tokens.Length ==> tokens[k] == old(tokens[k])
  {
    var tkn := 0;
    numProcesses := 0;
    while tokens[tkn] != None
      invariant 0 <= tkn <= |words|
      invariant numProcesses == multiset(words[..tkn])[PIPE]
      invariant forall k :: 0 <= k < tkn ==> tokens[k] == if words[k] == PIPE then None else Some(words[k])
      invariant forall k :: tkn <= k < |words| ==> tokens[k] == Some(words[k])
      invariant forall k :: |words| <= k < tokens.Length ==> tokens[k] == old(tokens[k])
      decreases |words| - tkn
    {
      assert words[..tkn + 1] == words[..tkn] + [words[tkn]];
      if tokens[tkn] == Some(PIPE) {
        tokens[tkn] := None;
        numProcesses := numProcesses + 1;
      }
      tkn := tkn + 1;
    }
    assert words[..tkn] == words;
    numProcesses := numProcesses + 1;
  }

  /** The second loop of shell.c:127-155: for every stage but the last, make
      a pipe, launch the stage into it, close the write end and move the
      `process` cursor past the stage's NULL; then launch the last stage onto
      standard output. The cursor `tkn` of the C code moves with `process`
      and is the same index. */
  method LaunchStages(tokens: array<Option<string>>, numProcesses: nat, ghost stages: seq<seq<string>>)
    returns (log: seq<Step>)
    requires numProcesses == |stages| >= 1
    requires forall i :: 0 <= i < |stages| ==> HoldsArgv(tokens[..], Start(stages, i), stages[i])
    ensures log == Plan(Starts(stages))
  {
    var process := 0;
    var input := Stdin;
    log := [];
    for i := 0 to numProcesses - 1
      invariant process == Start(stages, i)
      invariant input == InputOf(i)
      invariant log == Rounds(Starts(stages), i)
    {
      log := log + [OpenPipe(i)];
      log := log + [Launch(input, WriteEnd(i), process)];
      log := log + [CloseWriteEnd(i)];
      input := ReadEnd(i);

      ghost var end := Start(stages, i) + |stages[i]|;
      assert HoldsArgv(tokens[..], Start(stages, i), stages[i]);
      assert tokens[..][end] == None;
      forall k | Start(stages, i) <= k < end
        ensures tokens[k] != None
      {
        assert tokens[..][Start(stages, i) + (k - Start(stages, i))] == Some(stages[i][k - Start(stages, i)]);
      }
      while tokens[process] != None
        invariant Start(stages, i) <= process <= end
        invariant forall k :: Start(stages, i) <= k < end ==> tokens[k] != None
        decreases end - process
      {
        process := process + 1;
      }
      process := process + 1;
      StartNext(stages, i);
    }
    log := log + [Launch(input, Stdout, process)];
  }

  /** exec_commands (shell.c:96-155): a builtin leaves the tokens alone and
      builds no pipeline; otherwise every "|" becomes NULL and the stages are
      launched by the plan, each stage's argument vector beginning at its
      start slot. */
  method ExecCommands(tokens: array<Option<string>>, ghost words: seq<string>) returns (action: Action)
    requires |words| >= 1 && HoldsArgv(tokens[..], 0, words)
    modifies tokens
    ensures Builtin(words).Some? ==> action == Builtin(words).value && tokens[..] == old(tokens[..])
    ensures Builtin(words).None? ==> action == RunPipeline(Plan(Starts(Split(words))))
    ensures Builtin(words).None? ==> MarkedFrom(tokens[..], words)
    ensures Builtin(words).None? ==> forall i :: 0 <= i < |Split(words)| ==>
      HoldsArgv(tokens[..], Start(Split(words), i), Split(words)[i])
    ensures forall k :: |words| < k < tokens.Length ==> tokens[k] == old(tokens[k])
  {
    assert tokens[..][0] == Some(words[0]);
    if tokens[0] == Some("cd") {
      assert |words| > 1 ==> tokens[..][1] == Some(words[1]);
      return ChangeDir(tokens[1]);
    }
    if tokens[0] == Some("breakout") {
      return PlayBreakout;
    }
    if tokens[0] == Some("exit") {
      return ExitShell;
    }

    var numProcesses := MarkStages(tokens, words);
    ghost var stages := Split(words);
    SplitCount(words);
    forall i | 0 <= i < |stages|
      ensures HoldsArgv(tokens[..], Start(stages, i), stages[i])
    {
      MarkedLayout(tokens[..], words, i);
    }
    var log := LaunchStages(tokens, numProcesses, stages);
    action := RunPipeline(log);
  }

  // ---------------------------------------------------------------------------
  // The launched child

  /** Where a launched stage's standard input or output ends up: an endpoint
      it was handed, or a named file. An output file is opened with
      O_CREAT | O_WRONLY and without O_TRUNC (shell.c:251). */
  datatype Stream = Inherited(end: Endpoint) | File(path: string)

  /** The child branch of start_process (shell.c:174-194), up to execvp:
      wire the given endpoints onto standard input and output, then run the
      redirection scan over the stage's vector, whose file targets replace
      the endpoints. The vector left behind is what execvp receives. Opening
      the files, and failing to, is not modelled. */
  method ChildSetup(input: Endpoint, output: Endpoint, command: array<Option<string>>, ghost stage: seq<string>)
    returns (stdin: Stream, stdout: Stream)
    requires HoldsArgv(command[..], 0, stage) && Redirection.Defined(stage, 0)
    modifies command
    ensures HoldsArgv(command[..], 0, Redirection.Resolve(stage).args)
    ensures stdin == if Redirection.Resolve(stage).inputFile != "" then File(Redirection.Resolve(stage).inputFile) else Inherited(input)
    ensures stdout == if Redirection.Resolve(stage).outputFile != "" then File(Redirection.Resolve(stage).outputFile) else Inherited(output)
  {
    stdin, stdout := Inherited(Stdin), Inherited(Stdout);
    if input != Stdin {
      stdin := Inherited(input);
    }
    if output != Stdout {
      stdout := Inherited(output);
    }
    var inputFile, outputFile := Redirection.DoRedirection(command, stage);
    if |inputFile| > 0 {
      stdin := File(inputFile);
    }
    if |outputFile| > 0 {
      stdout := File(outputFile);
    }
  }
}
