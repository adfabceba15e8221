/** The shell's tokenizer, split_tokens (shell.c:42-91): one left-to-right scan
    over the input line with an in-quotes flag. Double quotes are dropped and
    only toggle the flag; an unquoted space ends the current token; every other
    character is copied into the token; the last token is always emitted. */
module Tokenizer {
  import opened Wrappers
  import opened Argv

  /** Index of the first newline: the scan of shell.c:57 stops there. */
  function NewlineIndex(src: string): (n: nat)
    requires '\n' in src
    ensures n < |src| && src[n] == '\n'
    ensures forall k :: 0 <= k < n ==> src[k] != '\n'
  {
    if src[0] == '\n' then 0 else 1 + NewlineIndex(src[1..])
  }

  /** The part of the buffer the tokenizer reads: everything before the first newline. */
  function Line(src: string): string
    requires '\n' in src
  {
    src[..NewlineIndex(src)]
  }

  /** The scanner's variables after some prefix of the line: the `inQuotes`
      flag, the token being built, and the tokens already stored in `dest`. */
  datatype Scan = Scan(inQuotes: bool, token: string, done: seq<string>)

  /** One iteration of the loop at shell.c:57-86 on the character `c`. */
  function Step(s: Scan, c: char): Scan
  {
    if c == '"' then
      s.(inQuotes := !s.inQuotes)
    else if c == ' ' && !s.inQuotes then
      Scan(s.inQuotes, "", if s.token == "" then s.done else s.done + [s.token])
    else
      s.(token := s.token + [c])
  }

  /** The scanner's variables after reading all of `p`. */
  function ScanOf(p: string): Scan
  {
    if p == [] then Scan(false, "", []) else Step(ScanOf(p[..|p| - 1]), p[|p| - 1])
  }

  /** The tokens split_tokens stores in `dest` ahead of the NULL: the ones the
      loop emitted, then the last token, which is emitted even when empty (shell.c:87-89). */
  function Tokens(line: string): seq<string>
  {
    ScanOf(line).done + [ScanOf(line).token]
  }

  // ---------------------------------------------------------------------------
  // An independent description of what survives tokenization

  /** Number of double quotes in `p`. */
  function QuoteCount(p: string): nat
  {
    if p == [] then 0 else QuoteCount(p[..|p| - 1]) + (if p[|p| - 1] == '"' then 1 else 0)
  }

  /** A character that follows `p` lies inside a quoted span. */
  predicate Quoted(p: string)
  {
    QuoteCount(p) % 2 == 1
  }

  /** Whether a character `c` that follows `p` reaches some token: quotes never
      do, spaces only inside a quoted span, everything else always. */
  predicate Copied(p: string, c: char)
  {
    c != '"' && (c != ' ' || Quoted(p))
  }

  /** The characters of `line` that reach some token, in order. */
  function Kept(line: string): string
  {
    if line == [] then [] else
      Kept(line[..|line| - 1]) + (if Copied(line[..|line| - 1], line[|line| - 1]) then [line[|line| - 1]] else [])
  }

  /** Concatenation of a list of tokens. */
  function Concat(ts: seq<string>): string
  {
    if ts == [] then [] else Concat(ts[..|ts| - 1]) + ts[|ts| - 1]
  }

  lemma ConcatAppend(ts: seq<string>, t: string)
    ensures Concat(ts + [t]) == Concat(ts) + t
  {
    assert (ts + [t])[..|ts|] == ts;
  }

  lemma ScanSnoc(p: string, c: char)
    ensures ScanOf(p + [c]) == Step(ScanOf(p), c)
  {
    assert (p + [c])[..|p|] == p;
  }

  /** Each character read adds at most one stored token or one pending
      character, so a line of n characters yields at most n + 1 tokens. */
  lemma {:induction false} ScanSize(p: string)
    ensures |ScanOf(p).done| + |ScanOf(p).token| <= |p|
    ensures 1 <= |Tokens(p)| <= |p| + 1
  {
    if p != [] {
      ScanSize(p[..|p| - 1]);
    }
  }

  /** The scanner's flag tells whether an odd number of quotes was read. */
  lemma {:induction false} ScanQuoted(p: string)
    ensures ScanOf(p).inQuotes == Quoted(p)
  {
    if p != [] {
      ScanQuoted(p[..|p| - 1]);
    }
  }

  /** What the scanner's variables hold after any prefix: the tokens stored
      so far and the current token together are the characters kept so far. */
  lemma {:induction false} ScanKept(p: string)
    ensures Concat(ScanOf(p).done) + ScanOf(p).token == Kept(p)
  {
    if p != [] {
      var q, c := p[..|p| - 1], p[|p| - 1];
      ScanKept(q);
      ScanQuoted(q);
      var s := ScanOf(q);
      if c == '"' {
        assert ScanOf(p) == s.(inQuotes := !s.inQuotes);
        assert Kept(p) == Kept(q);
      } else if c == ' ' && !s.inQuotes {
        assert Kept(p) == Kept(q);
        if s.token != "" {
          ConcatAppend(s.done, s.token);
          assert ScanOf(p) == Scan(false, "", s.done + [s.token]);
        } else {
          assert ScanOf(p) == Scan(false, "", s.done);
        }
      } else {
        assert ScanOf(p) == s.(token := s.token + [c]);
        assert Kept(p) == Kept(q) + [c];
      }
    }
  }

  /** Stored tokens are never empty, and no quote is ever copied. */
  lemma {:induction false} ScanClean(p: string)
    ensures forall t :: t in ScanOf(p).done ==> t != "" && '"' !in t
    ensures '"' !in ScanOf(p).token
  {
    if p != [] {
      ScanClean(p[..|p| - 1]);
    }
  }

  /** Tokens are only ever appended to `done` as the scan advances: what is
      stored after a prefix stays, unchanged, at the front of what is stored
      after the whole line. */
  lemma {:induction false} DoneGrows(line: string, i: nat)
    requires i <= |line|
    ensures ScanOf(line[..i]).done <= ScanOf(line).done
    decreases |line| - i
  {
    if i < |line| {
      DoneGrows(line, i + 1);
      assert line[..i + 1][..i] == line[..i];
      assert line[..i + 1] == line[..i] + [line[i]];
      ScanSnoc(line[..i], line[i]);
    } else {
      assert line[..i] == line;
    }
  }

  /** Concatenating the tokens in order gives the line with every quote and
      every space outside quotes deleted. */
  lemma TokensConcat(line: string)
    ensures Concat(Tokens(line)) == Kept(line)
  {
    ScanKept(line);
    ConcatAppend(ScanOf(line).done, ScanOf(line).token);
  }

  /** No token contains a quote, and only the last token can be empty: runs
      of unquoted spaces never produce an empty token. */
  lemma TokensShape(line: string)
    ensures |Tokens(line)| >= 1
    ensures forall t :: t in Tokens(line) ==> '"' !in t
    ensures forall i :: 0 <= i < |Tokens(line)| - 1 ==> Tokens(line)[i] != ""
  {
    ScanClean(line);
    var s := ScanOf(line);
    forall i | 0 <= i < |Tokens(line)| - 1
      ensures Tokens(line)[i] != ""
    {
      assert Tokens(line)[i] == s.done[i] && s.done[i] in s.done;
    }
  }

  /** With no quote in `p`, no space of `p` is kept. */
  lemma {:induction false} UnquotedKeepsNoSpace(p: string)
    requires '"' !in p
    ensures QuoteCount(p) == 0
    ensures ' ' !in Kept(p)
  {
    if p != [] {
      UnquotedKeepsNoSpace(p[..|p| - 1]);
    }
  }

  lemma {:induction false} ConcatHasParts(ts: seq<string>, i: nat, k: nat)
    requires i < |ts| && k < |ts[i]|
    ensures ts[i][k] in Concat(ts)
  {
    assert ts == ts[..|ts| - 1] + [ts[|ts| - 1]];
    ConcatAppend(ts[..|ts| - 1], ts[|ts| - 1]);
    if i < |ts| - 1 {
      ConcatHasParts(ts[..|ts| - 1], i, k);
    }
  }

  /** A token holds a space only when the line holds a quoted span: a line
      without quotes yields tokens without spaces. */
  lemma NoQuotesNoSpaces(line: string)
    requires '"' !in line
    ensures forall t :: t in Tokens(line) ==> ' ' !in t
  {
    UnquotedKeepsNoSpace(line);
    TokensConcat(line);
    var ts := Tokens(line);
    forall i, k | 0 <= i < |ts| && 0 <= k < |ts[i]|
      ensures ts[i][k] != ' '
    {
      ConcatHasParts(ts, i, k);
    }
  }

  /** An empty line gives a single empty token (shell.c:87-90). */
  lemma EmptyLine()
    ensures Tokens("") == [""]
  {
  }

  /** A space outside quotes at the end of the line stores the pending token
      if it is not empty and leaves an empty last token behind. */
  lemma TrailingSpace(line: string)
    requires !Quoted(line)
    ensures var t := Tokens(line);
      Tokens(line + " ") == (if t[|t| - 1] == "" then t[..|t| - 1] else t) + [""]
  {
    ScanQuoted(line);
    assert (line + " ")[..|line|] == line;
  }

  /** The scan of `echo ` stores `echo`. */
  lemma EchoScan()
    ensures ScanOf("echo ") == Scan(false, "", ["echo"])
  {
    ScanSnoc("", 'e');
    assert "" + ['e'] == "e";
    assert ScanOf("e") == Scan(false, "e", []);
    ScanSnoc("e", 'c');
    assert "e" + ['c'] == "ec";
    assert ScanOf("ec") == Scan(false, "ec", []);
    ScanSnoc("ec", 'h');
    assert "ec" + ['h'] == "ech";
    assert ScanOf("ech") == Scan(false, "ech", []);
    ScanSnoc("ech", 'o');
    assert "ech" + ['o'] == "echo";
    assert ScanOf("echo") == Scan(false, "echo", []);
    ScanSnoc("echo", ' ');
    assert "echo" + [' '] == "echo ";
    assert ScanOf("echo ") == Scan(false, "", ["echo"]);
  }

  /** The scan of `echo "a b"` holds `a b`, space included, as its pending token. */
  lemma QuotedScan()
    ensures ScanOf("echo \"a b\"") == Scan(false, "a b", ["echo"])
  {
    EchoScan();
    ScanSnoc("echo ", '\"');
    assert "echo " + ['\"'] == "echo \"";
    assert ScanOf("echo \"") == Scan(true, "", ["echo"]);
    ScanSnoc("echo \"", 'a');
    assert "echo \"" + ['a'] == "echo \"a";
    assert ScanOf("echo \"a") == Scan(true, "a", ["echo"]);
    ScanSnoc("echo \"a", ' ');
    assert "echo \"a" + [' '] == "echo \"a ";
    assert ScanOf("echo \"a ") == Scan(true, "a ", ["echo"]);
    ScanSnoc("echo \"a ", 'b');
    assert "echo \"a " + ['b'] == "echo \"a b";
    assert ScanOf("echo \"a b") == Scan(true, "a b", ["echo"]);
    ScanSnoc("echo \"a b", '\"');
    assert "echo \"a b" + ['\"'] == "echo \"a b\"";
    assert ScanOf("echo \"a b\"") == Scan(false, "a b", ["echo"]);
  }

  /** The example of a quoted span: `echo "a b" c` keeps the quoted space. */
  lemma QuotedSpanExample()
    ensures Tokens("echo \"a b\" c") == ["echo", "a b", "c"]
  {
    QuotedScan();
    ScanSnoc("echo \"a b\"", ' ');
    assert "echo \"a b\"" + [' '] == "echo \"a b\" ";
    assert ScanOf("echo \"a b\" ") == Scan(false, "", ["echo", "a b"]);
    ScanSnoc("echo \"a b\" ", 'c');
    assert "echo \"a b\" " + ['c'] == "echo \"a b\" c";
    assert ScanOf("echo \"a b\" c") == Scan(false, "c", ["echo", "a b"]);
  }

  /** One more character of the line read: the scan takes one step, and the
      tokens stored so far are no more than those of the whole line. */
  lemma ScanNext(src: string, i: nat)
    requires '\n' in src && i < |Line(src)|
    ensures ScanOf(Line(src)[..i + 1]) == Step(ScanOf(Line(src)[..i]), src[i])
    ensures |ScanOf(Line(src)[..i + 1]).done| <= |ScanOf(Line(src)).done|
  {
    var line := Line(src);
    assert line[..i + 1] == line[..i] + [src[i]];
    ScanSnoc(line[..i], src[i]);
    DoneGrows(line, i + 1);
  }

  /** The clearing loop of split_tokens (shell.c:50-55): every slot ends up NULL. */
  method Clear(dest: array<Option<string>>)
    modifies dest
    ensures forall k :: 0 <= k < dest.Length ==> dest[k] == None
  {
    for i := 0 to dest.Length
      invariant forall k :: 0 <= k < i ==> dest[k] == None
    {
      dest[i] := None;
    }
  }

  /** split_tokens (shell.c:42-91): clears `dest`, then stores the tokens of
      the line before the first newline, each in its own slot, followed by NULL.
      The caller's buffer must hold a newline within INPUT_SIZE characters and
      the tokens must fit in `dest` (the C code checks neither). */
  method SplitTokens(dest: array<Option<string>>, src: string)
    requires dest.Length == NUM_TOKENS
    requires |src| <= INPUT_SIZE && '\n' in src
    requires |Tokens(Line(src))| < NUM_TOKENS
    modifies dest
    ensures HoldsArgv(dest[..], 0, Tokens(Line(src)))
    ensures forall i :: |Tokens(Line(src))| < i < dest.Length ==> dest[i] == None
  {
    var inQuotes := false;
    var token := new char[INPUT_SIZE];
    var srcIdx, dstIdx, tokenIdx := 0, 0, 0;

    Clear(dest);

    ghost var line := Line(src);
    ghost var scan := ScanOf(line[..0]);
    DoneGrows(line, 0);
    while src[srcIdx] != '\n'
      invariant 0 <= srcIdx <= |line| && tokenIdx <= srcIdx
      invariant line == Line(src) && src[|line|] == '\n'
      invariant forall k :: 0 <= k < |line| ==> src[k] != '\n'
      invariant scan == ScanOf(line[..srcIdx])
      invariant scan.inQuotes == inQuotes && scan.token == token[..tokenIdx]
      invariant dstIdx == |scan.done| <= |ScanOf(line).done| < NUM_TOKENS - 1
      invariant forall k :: 0 <= k < dstIdx ==> dest[k] == Some(scan.done[k])
      invariant forall k :: dstIdx <= k < dest.Length ==> dest[k] == None
      decreases |line| - srcIdx
    {
      ScanNext(src, srcIdx);
      if src[srcIdx] == '"' {
        inQuotes := !inQuotes;
        scan := scan.(inQuotes := inQuotes);
      } else if src[srcIdx] == ' ' && !inQuotes {
        if tokenIdx != 0 {
          dest[dstIdx] := Some(token[..tokenIdx]);
          dstIdx := dstIdx + 1;
          scan := scan.(done := scan.done + [scan.token]);
        }
        tokenIdx := 0;
        scan := scan.(token := "");
      } else {
        token[tokenIdx] := src[srcIdx];
        tokenIdx := tokenIdx + 1;
        assert token[..tokenIdx] == scan.token + [src[srcIdx]];
        scan := scan.(token := token[..tokenIdx]);
      }
      srcIdx := srcIdx + 1;
    }
    assert line[..srcIdx] == line;
    ghost var words := scan.done + [scan.token];
    dest[dstIdx] := Some(token[..tokenIdx]);
    dest[dstIdx + 1] := None;
    assert forall k :: 0 <= k < |words| ==> dest[k] == Some(words[k]);
  }
}
