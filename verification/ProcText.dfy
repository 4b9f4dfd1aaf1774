/** Reading a process's NUL-separated argument and environment blocks. */
module ProcText {

  const NUL := '\0'

  predicate NulFree(s: string) { NUL !in s }

  /** The first NUL at or after `i`, or the end of the text. */
  function NextNul(text: string, i: nat): (end: nat)
    requires i <= |text|
    ensures i <= end <= |text| && NulFree(text[i..end]) && (end < |text| ==> text[end] == NUL)
    decreases |text| - i
  {
    if i == |text| || text[i] == NUL then i
    else
      var end := NextNul(text, i + 1);
      assert text[i..end] == [text[i]] + text[i + 1..end];
      end
  }

  /** The texts between NULs, from `i` on; a final NUL is followed by an empty text. */
  function Pieces(text: string, i: nat): seq<string>
    decreases |text| - i
  {
    if i > |text| then []
    else
      var end := NextNul(text, i);
      [text[i..end]] + Pieces(text, end + 1)
  }

  predicate Defines(entry: string, name: string) {
    name + "=" <= entry
  }

  /** The value of the first entry beginning with the name and an equals sign. */
  function FirstValue(entries: seq<string>, name: string): string {
    if entries == [] then ""
    else if Defines(entries[0], name) then entries[0][|name| + 1..]
    else FirstValue(entries[1..], name)
  }

  function NonEmpty(entries: seq<string>): seq<string> {
    if entries == [] then []
    else if entries[0] == "" then NonEmpty(entries[1..])
    else [entries[0]] + NonEmpty(entries[1..])
  }

  /** The test `environ_of` makes on the text in place is the prefix test on the entry cut out of it. */
  lemma DefinesInPlace(text: string, start: nat, end: nat, name: string)
    requires start <= end <= |text|
    ensures Defines(text[start..end], name) <==>
      end - start > |name| && text[start..start + |name|] == name && text[start + |name|] == '='
  {
    var entry := text[start..end];
    if Defines(entry, name) {
      assert entry[..|name|] == name by {
        assert (name + "=")[..|name|] == name;
      }
      assert entry[|name|] == (name + "=")[|name|];
      assert text[start..start + |name|] == entry[..|name|];
    }
    if end - start > |name| && text[start..start + |name|] == name && text[start + |name|] == '=' {
      assert entry[..|name| + 1] == name + "=" by {
        assert entry[..|name|] == name;
      }
    }
  }

  method EnvironOf(text: string, name: string) returns (value: string)
    ensures value == FirstValue(Pieces(text, 0), name)
  {
    var start := 0;
    while start < |text|
      invariant start <= |text| + 1
      invariant FirstValue(Pieces(text, 0), name) == FirstValue(Pieces(text, start), name)
      decreases |text| + 1 - start
    {
      var end := NextNul(text, start);
      DefinesInPlace(text, start, end, name);
      if end - start > |name| && text[start..start + |name|] == name && text[start + |name|] == '=' {
        return text[start + |name| + 1..end];
      }
      start := end + 1;
    }
    return "";
  }

  method SplitArguments(cmdline: string) returns (args: seq<string>)
    ensures args == NonEmpty(Pieces(cmdline, 0))
  {
    args := [];
    var start: nat := 0;
    for i := 0 to |cmdline| + 1
      invariant start <= i && NoneBetween(cmdline, start, i)
      invariant i == |cmdline| + 1 ==> start == i
      invariant args + NonEmpty(Pieces(cmdline, start)) == NonEmpty(Pieces(cmdline, 0))
    {
      if i == |cmdline| || cmdline[i] == NUL {
        PieceEnds(cmdline, start, i, args);
        if i > start {
          args := args + [cmdline[start..i]];
        }
        start := i + 1;
      }
    }
  }

  predicate NoneBetween(text: string, start: nat, end: nat) {
    forall k :: start <= k < end && k < |text| ==> text[k] != NUL
  }

  lemma PieceEnds(text: string, start: nat, end: nat, args: seq<string>)
    requires start <= end <= |text| && NoneBetween(text, start, end) && (end < |text| ==> text[end] == NUL)
    ensures args + NonEmpty(Pieces(text, start)) ==
      (if end > start then args + [text[start..end]] else args) + NonEmpty(Pieces(text, end + 1))
  {
    NextNulIs(text, start, end);
    assert end == start ==> text[start..end] == "";
  }

  lemma {:induction false} NextNulIs(text: string, start: nat, end: nat)
    requires start <= end <= |text| && NulFree(text[start..end]) && (end < |text| ==> text[end] == NUL)
    ensures NextNul(text, start) == end
    decreases end - start
  {
    if start < end {
      assert text[start] == text[start..end][0];
      assert text[start + 1..end] == text[start..end][1..];
      NextNulIs(text, start + 1, end);
    }
  }

  // ----- The blocks the kernel writes -----

  /** Each entry followed by a NUL. */
  function Terminated(entries: seq<string>): string {
    if entries == [] then "" else entries[0] + [NUL] + Terminated(entries[1..])
  }

  /** A process may rewrite its block: the last NUL can be missing. */
  function Unterminated(entries: seq<string>): string {
    if entries == [] then "" else if |entries| == 1 then entries[0] else entries[0] + [NUL] + Unterminated(entries[1..])
  }

  lemma {:induction false} NextNulShift(head: string, tail: string, i: nat)
    requires i <= |tail|
    ensures NextNul(head + tail, |head| + i) == |head| + NextNul(tail, i)
    decreases |tail| - i
  {
    if i < |tail| {
      assert (head + tail)[|head| + i] == tail[i];
      NextNulShift(head, tail, i + 1);
    }
  }

  lemma {:induction false} PiecesShift(head: string, tail: string, i: nat)
    ensures Pieces(head + tail, |head| + i) == Pieces(tail, i)
    decreases |tail| - i
  {
    if i <= |tail| {
      var end := NextNul(tail, i);
      NextNulShift(head, tail, i);
      SliceShift(head, tail, i, end);
      PiecesShift(head, tail, end + 1);
    }
  }

  lemma SliceShift(head: string, tail: string, i: nat, end: nat)
    requires i <= end <= |tail|
    ensures (head + tail)[|head| + i..|head| + end] == tail[i..end]
  {}

  lemma PiecesCons(entry: string, rest: string)
    requires NulFree(entry)
    ensures Pieces(entry + [NUL] + rest, 0) == [entry] + Pieces(rest, 0)
    ensures Pieces(entry, 0) == [entry]
  {
    var text := entry + [NUL] + rest;
    assert text[0..|entry|] == entry && entry[0..|entry|] == entry;
    NextNulIs(text, 0, |entry|);
    NextNulIs(entry, 0, |entry|);
    PiecesShift(entry + [NUL], rest, 0);
  }

  lemma {:induction false} PiecesOfTerminated(entries: seq<string>)
    requires forall i :: 0 <= i < |entries| ==> NulFree(entries[i])
    ensures Pieces(Terminated(entries), 0) == entries + [""]
  {
    if entries != [] {
      PiecesCons(entries[0], Terminated(entries[1..]));
      PiecesOfTerminated(entries[1..]);
    } else {
      PiecesCons("", "");
    }
  }

  lemma {:induction false} PiecesOfUnterminated(entries: seq<string>)
    requires entries != [] && forall i :: 0 <= i < |entries| ==> NulFree(entries[i])
    ensures Pieces(Unterminated(entries), 0) == entries
  {
    if |entries| > 1 {
      PiecesCons(entries[0], Unterminated(entries[1..]));
      PiecesOfUnterminated(entries[1..]);
    } else {
      PiecesCons(entries[0], "");
    }
  }

  lemma {:induction false} TrailingEmpty(entries: seq<string>, name: string)
    ensures FirstValue(entries + [""], name) == FirstValue(entries, name)
    ensures NonEmpty(entries + [""]) == NonEmpty(entries)
  {
    if entries != [] {
      assert (entries + [""])[1..] == entries[1..] + [""];
      TrailingEmpty(entries[1..], name);
    }
  }

  /** Both parsers undo the joining of any NUL-free entries, with the last NUL or without it. */
  lemma JoinedBack(entries: seq<string>, name: string)
    requires forall i :: 0 <= i < |entries| ==> NulFree(entries[i])
    ensures FirstValue(Pieces(Terminated(entries), 0), name) == FirstValue(entries, name)
    ensures FirstValue(Pieces(Unterminated(entries), 0), name) == FirstValue(entries, name)
    ensures NonEmpty(Pieces(Terminated(entries), 0)) == NonEmpty(entries)
    ensures NonEmpty(Pieces(Unterminated(entries), 0)) == NonEmpty(entries)
  {
    PiecesOfTerminated(entries);
    TrailingEmpty(entries, name);
    if entries == [] {
      PiecesCons("", "");
      TrailingEmpty([], name);
    } else {
      PiecesOfUnterminated(entries);
    }
  }

  /** The value found is that of the earliest entry defining the name; entries that only start with the name do not count. */
  lemma {:induction false} FirstValueIs(entries: seq<string>, name: string, i: nat, value: string)
    requires i < |entries| && entries[i] == name + "=" + value
    requires forall j :: 0 <= j < i ==> !Defines(entries[j], name)
    ensures FirstValue(entries, name) == value
  {
    if i == 0 {
      assert entries[0][..|name| + 1] == name + "=";
    } else {
      FirstValueIs(entries[1..], name, i - 1, value);
    }
  }

  // ----- Other daemons -----

  function BaseName(path: string): string {
    if path == "" then ""
    else if path[|path| - 1] == '/' then ""
    else BaseName(path[..|path| - 1]) + [path[|path| - 1]]
  }

  /** The part behind the last slash: no slash in it, and nothing or a slash right before it. */
  lemma {:induction false} BaseNameIs(path: string)
    ensures var name := BaseName(path);
      && |name| <= |path| && path[|path| - |name|..] == name && '/' !in name
      && (|name| < |path| ==> path[|path| - |name| - 1] == '/')
  {
    if path != "" && path[|path| - 1] != '/' {
      var front, name := path[..|path| - 1], BaseName(path);
      BaseNameIs(front);
      assert path == front + [path[|path| - 1]];
      assert path[|path| - |name|..] == front[|front| - |BaseName(front)|..] + [path[|path| - 1]];
    }
  }

  /** Whatever directory it was started from. */
  lemma BaseNameOf(dir: string, name: string)
    requires '/' !in name
    ensures BaseName(dir + "/" + name) == name && BaseName(name) == name
  {
    SameBase(dir + "/" + name, name);
    SameBase(name, name);
  }

  lemma {:induction false} SameBase(path: string, name: string)
    requires '/' !in name && |name| <= |path| && path[|path| - |name|..] == name
    requires |name| < |path| ==> path[|path| - |name| - 1] == '/'
    ensures BaseName(path) == name
    decreases |name|
  {
    if name != "" {
      assert name[|name| - 1] in name;
      assert path[|path| - 1] == name[|name| - 1];
      SameBase(path[..|path| - 1], name[..|name| - 1]);
    }
  }

  /** What one process must look like to count as another start of the same service. */
  predicate OtherStart(argv: seq<string>, environ: seq<string>, variable: string, binary: string, logFile: string) {
    var args := NonEmpty(argv);
    |args| >= 2 && BaseName(args[0]) == binary && args[1] == "start" && FirstValue(environ, variable) == logFile
  }

  /** Started as `<directory>/<binary> start ...` with the log file in its environment, it counts; as `stop`, it does not. */
  lemma StartCounts(dir: string, binary: string, rest: seq<string>, variable: string, logFile: string, others: seq<string>)
    requires '/' !in binary && variable != ""
    ensures OtherStart([dir + "/" + binary, "start"] + rest, [variable + "=" + logFile] + others, variable, binary, logFile)
    ensures !OtherStart([dir + "/" + binary, "stop"] + rest, [variable + "=" + logFile] + others, variable, binary, logFile)
  {
    BaseNameOf(dir, binary);
    assert dir + "/" + binary != "";
    TwoFirst(dir + "/" + binary, "start", rest);
    TwoFirst(dir + "/" + binary, "stop", rest);
    FirstValueIs([variable + "=" + logFile] + others, variable, 0, logFile);
  }

  lemma TwoFirst(a: string, b: string, rest: seq<string>)
    requires a != "" && b != ""
    ensures |NonEmpty([a, b] + rest)| >= 2 && NonEmpty([a, b] + rest)[0] == a && NonEmpty([a, b] + rest)[1] == b
  {
    var all := [a, b] + rest;
    assert all[1..][1..] == rest;
  }

  /** The loop body of `find_other_start_pids`, on the two blocks of one process. */
  method Matches(cmdline: string, environ: string, variable: string, binary: string, logFile: string) returns (found: bool)
    ensures found == OtherStart(Pieces(cmdline, 0), Pieces(environ, 0), variable, binary, logFile)
  {
    if cmdline == "" {
      return false;
    }
    var args := SplitArguments(cmdline);
    if |args| < 2 { return false; }
    if BaseName(args[0]) != binary { return false; }
    if args[1] != "start" { return false; }
    var value := EnvironOf(environ, variable);
    return value == logFile;
  }

  /** A process is found by its own arguments and environment, never by text that merely contains the words. */
  lemma FoundByOwnArguments(argv: seq<string>, environ: seq<string>, variable: string, binary: string, logFile: string)
    requires forall i :: 0 <= i < |argv| ==> NulFree(argv[i])
    requires forall i :: 0 <= i < |environ| ==> NulFree(environ[i])
    ensures OtherStart(Pieces(Terminated(argv), 0), Pieces(Terminated(environ), 0), variable, binary, logFile)
      <==> OtherStart(argv, environ, variable, binary, logFile)
  {
    JoinedBack(argv, variable);
    JoinedBack(environ, variable);
  }
}
