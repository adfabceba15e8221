/** The redirection stripper of do_redirection (shell.c:207-235): a scan over
    one stage's NULL-terminated argument vector that records the filename
    after every `<` and `>`, and deletes the operator and its filename by
    shifting the rest of the vector two places down, in place. */
module Redirection {
  import opened Wrappers
  import opened Argv

  predicate IsOperator(t: string)
  {
    t == "<" || t == ">"
  }

  /** Whether the scan over the unread tokens `rest` has defined behaviour
      when `kept` tokens survive ahead of them. Every operator needs a
      following token (shell.c:217 and 227 copy from it), and a `<` must not
      be met at index 0, where shell.c:223-225 steps back to index -1. */
  predicate Defined(rest: seq<string>, kept: nat)
    decreases |rest|
  {
    if rest == [] then true
    else if IsOperator(rest[0]) then
      |rest| >= 2 && (rest[0] == "<" ==> kept > 0) && Defined(rest[2..], kept)
    else
      Defined(rest[1..], kept + 1)
  }

  /** The scan's result: the surviving arguments and the two filename
      buffers, where "" means that no redirection was requested. */
  datatype Resolved = Resolved(args: seq<string>, inputFile: string, outputFile: string)

  /** The scan of shell.c:213-235 over the unread tokens `rest`, starting
      from what the tokens before them produced. */
  function Strip(rest: seq<string>, acc: Resolved): Resolved
    requires Defined(rest, |acc.args|)
    decreases |rest|
  {
    if rest == [] then acc
    else if rest[0] == "<" then Strip(rest[2..], acc.(inputFile := rest[1]))
    else if rest[0] == ">" then Strip(rest[2..], acc.(outputFile := rest[1]))
    else Strip(rest[1..], acc.(args := acc.args + [rest[0]]))
  }

  /** What do_redirection makes of a stage: both filename buffers start empty. */
  function Resolve(stage: seq<string>): Resolved
    requires Defined(stage, 0)
  {
    Strip(stage, Resolved([], "", ""))
  }

  /** `sub` is `s` with some elements deleted, the rest kept in order. */
  predicate Subsequence(sub: seq<string>, s: seq<string>)
    decreases |s|
  {
    sub == [] ||
    (s != [] && ((sub[0] == s[0] && Subsequence(sub[1..], s[1..])) || Subsequence(sub, s[1..])))
  }

  /** The scan only appends to the arguments it was given; what it appends
      is the unread tokens with some deleted, the rest kept in order, none of
      them an operator; and the tokens it deletes come in pairs. */
  lemma {:induction false} StripShape(rest: seq<string>, acc: Resolved)
    requires Defined(rest, |acc.args|)
    ensures var r := Strip(rest, acc);
      && |acc.args| <= |r.args|
      && r.args[..|acc.args|] == acc.args
      && Subsequence(r.args[|acc.args|..], rest)
      && (forall t :: t in r.args[|acc.args|..] ==> !IsOperator(t))
      && (|rest| - (|r.args| - |acc.args|)) % 2 == 0
    decreases |rest|
  {
    if rest == [] {
    } else if IsOperator(rest[0]) {
      var acc' := if rest[0] == "<" then acc.(inputFile := rest[1]) else acc.(outputFile := rest[1]);
      StripShape(rest[2..], acc');
      var tail := Strip(rest, acc).args[|acc.args|..];
      assert Subsequence(tail, rest[1..]) by {
        assert rest[1..][1..] == rest[2..];
      }
    } else {
      var acc' := acc.(args := acc.args + [rest[0]]);
      StripShape(rest[1..], acc');
      var r := Strip(rest, acc);
      var tail := r.args[|acc.args|..];
      assert tail == [rest[0]] + r.args[|acc'.args|..];
      assert tail[1..] == r.args[|acc'.args|..];
    }
  }

  /** Resolving a stage: no operator survives among the arguments, the
      survivors keep their relative order, and operators and their filenames
      leave in pairs. */
  lemma ResolveShape(stage: seq<string>)
    requires Defined(stage, 0)
    ensures forall t :: t in Resolve(stage).args ==> !IsOperator(t)
    ensures Subsequence(Resolve(stage).args, stage)
    ensures (|stage| - |Resolve(stage).args|) % 2 == 0
  {
    StripShape(stage, Resolved([], "", ""));
    assert Resolve(stage).args[0..] == Resolve(stage).args;
  }

  /** The filenames the scan records are tokens it read: each buffer keeps
      what it held or takes a token of `rest`. */
  lemma {:induction false} StripFiles(rest: seq<string>, acc: Resolved)
    requires Defined(rest, |acc.args|)
    ensures Strip(rest, acc).inputFile == acc.inputFile || Strip(rest, acc).inputFile in rest
    ensures Strip(rest, acc).outputFile == acc.outputFile || Strip(rest, acc).outputFile in rest
    decreases |rest|
  {
    if rest == [] {
    } else if rest[0] == "<" {
      StripFiles(rest[2..], acc.(inputFile := rest[1]));
      assert forall t :: t in rest[2..] ==> t in rest;
    } else if rest[0] == ">" {
      StripFiles(rest[2..], acc.(outputFile := rest[1]));
      assert forall t :: t in rest[2..] ==> t in rest;
    } else {
      StripFiles(rest[1..], acc.(args := acc.args + [rest[0]]));
      assert forall t :: t in rest[1..] ==> t in rest;
    }
  }

  /** Each filename buffer is left empty or holds a token of the stage. */
  lemma ResolveFiles(stage: seq<string>)
    requires Defined(stage, 0)
    ensures Resolve(stage).inputFile == "" || Resolve(stage).inputFile in stage
    ensures Resolve(stage).outputFile == "" || Resolve(stage).outputFile in stage
  {
    StripFiles(stage, Resolved([], "", ""));
  }

  /** Scanning a concatenation is scanning its first part and then its
      second from where the first left off. */
  lemma {:induction false} StripAppend(s: seq<string>, t: seq<string>, acc: Resolved)
    requires Defined(s, |acc.args|)
    requires Defined(t, |Strip(s, acc).args|)
    ensures Defined(s + t, |acc.args|)
    ensures Strip(s + t, acc) == Strip(t, Strip(s, acc))
    decreases |s|
  {
    if s == [] {
      assert s + t == t;
    } else if IsOperator(s[0]) {
      var acc' := if s[0] == "<" then acc.(inputFile := s[1]) else acc.(outputFile := s[1]);
      StripAppend(s[2..], t, acc');
      assert (s + t)[2..] == s[2..] + t;
    } else {
      StripAppend(s[1..], t, acc.(args := acc.args + [s[0]]));
      assert (s + t)[1..] == s[1..] + t;
    }
  }

  /** A word that is not an operator, appended to a stage, becomes its last argument. */
  lemma ResolveAppendWord(stage: seq<string>, w: string)
    requires Defined(stage, 0) && !IsOperator(w)
    ensures Defined(stage + [w], 0)
    ensures Resolve(stage + [w]) == Resolve(stage).(args := Resolve(stage).args + [w])
  {
    StripAppend(stage, [w], Resolved([], "", ""));
  }

  /** The last `<` wins: appending `< f` sets the input file to `f` and
      changes nothing else. It is defined once some argument precedes it. */
  lemma ResolveAppendInput(stage: seq<string>, f: string)
    requires Defined(stage, 0) && Resolve(stage).args != []
    ensures Defined(stage + ["<", f], 0)
    ensures Resolve(stage + ["<", f]) == Resolve(stage).(inputFile := f)
  {
    StripAppend(stage, ["<", f], Resolved([], "", ""));
  }

  /** The last `>` wins: appending `> f` sets the output file to `f` and
      changes nothing else. */
  lemma ResolveAppendOutput(stage: seq<string>, f: string)
    requires Defined(stage, 0)
    ensures Defined(stage + [">", f], 0)
    ensures Resolve(stage + [">", f]) == Resolve(stage).(outputFile := f)
  {
    StripAppend(stage, [">", f], Resolved([], "", ""));
  }

  /** A stage without operators is left as it is, with no redirection. */
  lemma {:induction false} NoOperators(rest: seq<string>, acc: Resolved)
    requires forall t :: t in rest ==> !IsOperator(t)
    ensures Defined(rest, |acc.args|)
    ensures Strip(rest, acc) == acc.(args := acc.args + rest)
    decreases |rest|
  {
    if rest != [] {
      NoOperators(rest[1..], acc.(args := acc.args + [rest[0]]));
      assert acc.args + [rest[0]] + rest[1..] == acc.args + rest;
    }
  }

  /** `sort > out.txt` runs `sort` with its output sent to out.txt. */
  lemma SortToFileExample()
    ensures Defined(["sort", ">", "out.txt"], 0)
    ensures Resolve(["sort", ">", "out.txt"]) == Resolved(["sort"], "", "out.txt")
  {
    assert ["sort", ">", "out.txt"][1..][2..] == [];
  }

  /** Deletes entries i and i + 1 of the NULL-terminated vector `words` by
      moving every later entry, and the NULL, two places down
      (shell.c:218-222, and again at 228-232). The last word's old slot and
      every slot from the old NULL on are left as they were. */
  method DeletePair(a: array<Option<string>>, i: nat, ghost words: seq<string>)
    requires HoldsArgv(a[..], 0, words) && i + 2 <= |words|
    modifies a
    ensures HoldsArgv(a[..], 0, words[..i] + words[i + 2..])
    ensures forall k :: |words| - 2 < k < a.Length ==> a[k] == old(a[k])
  {
    var j := i + 2;
    while a[j] != None
      invariant i + 2 <= j <= |words|
      invariant forall k :: 0 <= k < i ==> a[k] == old(a[k])
      invariant forall k :: i <= k < j - 2 ==> a[k] == Some(words[k + 2])
      invariant forall k :: j - 2 <= k < a.Length ==> a[k] == old(a[k])
      invariant forall k :: j <= k < |words| ==> a[k] == Some(words[k])
      invariant a[|words|] == None
      decreases |words| - j
    {
      a[j - 2] := a[j];
      j := j + 1;
    }
    a[j - 2] := None;
    assert a[..][|words| - 2] == None;
  }

  /** One redirection of the scan: the operator at `i` and its filename
      leave the vector, and the filename is returned (shell.c:217-223, 227-233). */
  method TakeRedirection(a: array<Option<string>>, i: nat, ghost kept: seq<string>, ghost rest: seq<string>)
    returns (file: string)
    requires HoldsArgv(a[..], 0, kept + rest) && i == |kept| && |rest| >= 2
    modifies a
    ensures file == rest[1]
    ensures HoldsArgv(a[..], 0, kept + rest[2..])
    ensures forall k :: |kept| + |rest| - 2 < k < a.Length ==> a[k] == old(a[k])
  {
    assert a[..][i + 1] == Some((kept + rest)[i + 1]);
    file := a[i + 1].value;
    DeletePair(a, i, kept + rest);
    assert (kept + rest)[..i] + (kept + rest)[i + 2..] == kept + rest[2..];
  }

  /** do_redirection's scan (shell.c:209-235): leaves the surviving arguments
      in place as a NULL-terminated vector and returns the two filename
      buffers. Slots past the old NULL are untouched. */
  method DoRedirection(a: array<Option<string>>, ghost stage: seq<string>)
    returns (inputFile: string, outputFile: string)
    requires HoldsArgv(a[..], 0, stage) && Defined(stage, 0)
    modifies a
    ensures HoldsArgv(a[..], 0, Resolve(stage).args)
    ensures inputFile == Resolve(stage).inputFile && outputFile == Resolve(stage).outputFile
    ensures forall k :: |stage| < k < a.Length ==> a[k] == old(a[k])
  {
    inputFile, outputFile := "", "";
    var i: int := 0;
    ghost var kept: seq<string> := [];
    ghost var rest := stage;
    while a[i] != None
      invariant 0 <= i == |kept| && |kept| + |rest| <= |stage|
      invariant HoldsArgv(a[..], 0, kept + rest)
      invariant a[i] == if rest == [] then None else Some(rest[0])
      invariant Defined(rest, |kept|)
      invariant forall t :: t in kept ==> !IsOperator(t)
      invariant Strip(rest, Resolved(kept, inputFile, outputFile)) == Resolve(stage)
      invariant forall k :: |stage| < k < a.Length ==> a[k] == old(a[k])
      decreases |rest|
    {
      ghost var t := rest[0];
      assert t == "<" ==> |kept| > 0;
      if a[i] == Some("<") {
        inputFile := TakeRedirection(a, i, kept, rest);
        rest := rest[2..];
        i := i - 1;
        assert 0 <= i < |kept| && (kept + rest)[i] == kept[i];
        assert a[..][i] == Some(kept[i]) && kept[i] in kept;
      }
      if a[i] == Some(">") {
        outputFile := TakeRedirection(a, i, kept, rest);
        rest := rest[2..];
        i := i - 1;
      }
      if !IsOperator(t) {
        assert kept + [t] + rest[1..] == kept + rest;
        kept := kept + [t];
        rest := rest[1..];
      }
      i := i + 1;
      assert rest != [] ==> a[..][i] == Some((kept + rest)[i]);
    }
    assert rest == [] && kept + rest == kept;
  }
}
