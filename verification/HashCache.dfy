/** The logger's cache of string hashes, and the trace records that declare them. */
module HashCache {
  import opened Wrappers

  /** A hash text; the missing one stands for `NO_HASH_DEFAULT`. */
  type Hash = string

  datatype Kind = FileHash | StringHash | HostnameHash

  /** A metadata record telling which text a hash stands for. */
  datatype Record = Record(text: string, hash: Hash, kind: Kind)

  // ----- Making a text safe for the trace -----

  const NUL := '\0'

  predicate Ignored(c: char) {
    c < ' ' || c == '(' || c == ')' || c == '\\' || c == '"' || c == '\'' || c == '|'
  }

  function Blanked(c: char): char { if Ignored(c) then ' ' else c }

  /** Up to the first NUL. */
  function Fixed(buffer: seq<char>): (r: seq<char>)
    ensures |r| == |buffer|
  {
    if buffer == [] || buffer[0] == NUL then buffer else [Blanked(buffer[0])] + Fixed(buffer[1..])
  }

  method FixStr(buffer: array<char>)
    modifies buffer
    ensures buffer[..] == Fixed(old(buffer[..]))
  {
    var i := 0;
    ghost var was := buffer[..];
    while i < buffer.Length && buffer[i] != NUL
      invariant 0 <= i <= buffer.Length
      invariant forall k :: 0 <= k < i ==> was[k] != NUL && buffer[k] == Blanked(was[k])
      invariant forall k :: i <= k < buffer.Length ==> buffer[k] == was[k]
    {
      if Ignored(buffer[i]) {
        buffer[i] := ' ';
      }
      i := i + 1;
    }
    FixedAt(was, i);
    assert buffer[..] == Fixed(was);
  }

  /** Up to the first NUL every place is blanked by itself, and nothing after it changes. */
  lemma {:induction false} FixedAt(buffer: seq<char>, n: nat)
    requires n <= |buffer| && forall i :: 0 <= i < n ==> buffer[i] != NUL
    requires n == |buffer| || buffer[n] == NUL
    ensures forall i :: 0 <= i < |buffer| ==> Fixed(buffer)[i] == if i < n then Blanked(buffer[i]) else buffer[i]
  {
    if n > 0 {
      FixedAt(buffer[1..], n - 1);
    }
  }

  lemma BlankedIsSafe(c: char)
    ensures !Ignored(Blanked(c)) && (Blanked(c) == c <==> !Ignored(c)) && (Blanked(c) == NUL ==> c == NUL)
  {}

  /** What is left is safe up to the NUL, in the same places, and a second pass changes nothing. */
  lemma FixedIsSafe(buffer: seq<char>, n: nat)
    requires n <= |buffer| && forall i :: 0 <= i < n ==> buffer[i] != NUL
    requires n == |buffer| || buffer[n] == NUL
    ensures forall i :: 0 <= i < n ==> Fixed(buffer)[i] == Blanked(buffer[i]) && !Ignored(Fixed(buffer)[i])
    ensures Fixed(buffer)[n..] == buffer[n..]
    ensures Fixed(Fixed(buffer)) == Fixed(buffer)
    ensures Fixed(buffer) == buffer <==> forall i :: 0 <= i < n ==> !Ignored(buffer[i])
  {
    FixedAt(buffer, n);
    var r := Fixed(buffer);
    forall i | 0 <= i < n ensures r[i] == Blanked(buffer[i]) && !Ignored(r[i]) && r[i] != NUL && (r[i] == buffer[i] <==> !Ignored(buffer[i])) {
      BlankedIsSafe(buffer[i]);
    }
    FixedAt(r, n);
    forall i | 0 <= i < n ensures Blanked(r[i]) == r[i] { BlankedIsSafe(r[i]); }
    assert Fixed(r) == r;
  }

  /** Characters that may stand in a record: from the blank on, but no bracket, backslash, quote or bar. */
  predicate MayStand(c: char) { c as int >= 32 && c !in "()\\\"'|" }

  /** Exactly these are left alone, and every other becomes a blank. */
  lemma FixedSpelled(buffer: seq<char>, n: nat)
    requires n <= |buffer| && forall i :: 0 <= i < n ==> buffer[i] != NUL
    requires n == |buffer| || buffer[n] == NUL
    ensures |Fixed(buffer)| == |buffer|
    ensures forall i :: 0 <= i < |buffer| ==>
      Fixed(buffer)[i] == if i >= n || MayStand(buffer[i]) then buffer[i] else ' '
  {
    FixedAt(buffer, n);
  }

  // ----- The cache -----

  /** `manager` tells whether there is a trace to write to; `stored` is the strings declared by `hash_and_store_str`. */
  datatype LogState = LogState(cache: map<string, Hash>, records: seq<Record>, manager: bool, stored: seq<string>)

  function Store(hash: string -> Hash, s: LogState, file: string, kind: Kind): LogState {
    if file in s.cache then s
    else LogState(s.cache[file := hash(file)], s.records + [Record(Fixed(file), hash(file), kind)], s.manager, s.stored + [file])
  }

  function StoreAll(hash: string -> Hash, s: LogState, files: seq<(string, Kind)>): LogState {
    if files == [] then s
    else Store(hash, StoreAll(hash, s, files[..|files| - 1]), files[|files| - 1].0, files[|files| - 1].1)
  }

  /** A buffer read as a C string. */
  function CText(buffer: seq<char>): (r: string)
    ensures r <= buffer && NUL !in r && (|r| < |buffer| ==> buffer[|r|] == NUL)
  {
    if buffer == [] || buffer[0] == NUL then [] else [buffer[0]] + CText(buffer[1..])
  }

  /** What `update_log_file` hashes besides the host name: command and executable as C strings, made safe. */
  function StartTexts(cwd: Option<string>, cmd: string, exec: string): seq<(string, Kind)> {
    (if cwd.Some? then [(cwd.value, FileHash)] else []) + [(CText(Fixed(cmd)), StringHash), (CText(Fixed(exec)), StringHash)]
  }

  datatype Op =
    | HashAndStore(file: Option<string>, kind: Kind)
    | UpdateLogFile(host: string, cwd: Option<string>, cmd: string, exec: string, includeMetadata: bool)
    | Finalize

  /** `hash_and_store` writes through the buffer manager without asking whether there is one. */
  predicate Enabled(s: LogState, op: Op) {
    op.HashAndStore? && op.file.Some? && op.file.value !in s.cache ==> s.manager
  }

  function After(hash: string -> Hash, s: LogState, op: Op): LogState {
    match op
    case HashAndStore(file, kind) => if file.None? then s else Store(hash, s, file.value, kind)
    case UpdateLogFile(host, cwd, cmd, exec, includeMetadata) =>
      var s' := s.(cache := s.cache[host := hash(host)]);
      if !s.manager then s'
      else
        var s'' := s'.(records := s.records + [Record(Fixed(host), hash(host), HostnameHash)]);
        if includeMetadata then StoreAll(hash, s'', StartTexts(cwd, cmd, exec)) else s''
    case Finalize => s.(cache := map[], manager := false)
  }

  function Run(hash: string -> Hash, manager: bool, ops: seq<Op>): LogState {
    if ops == [] then LogState(map[], [], manager, []) else After(hash, Run(hash, manager, ops[..|ops| - 1]), ops[|ops| - 1])
  }

  predicate Possible(hash: string -> Hash, manager: bool, ops: seq<Op>) {
    ops == [] || (Possible(hash, manager, ops[..|ops| - 1]) && Enabled(Run(hash, manager, ops[..|ops| - 1]), ops[|ops| - 1]))
  }

  /** Some record of the trace tells what the hash stands for. */
  predicate Declared(records: seq<Record>, text: string, h: Hash) {
    exists i :: 0 <= i < |records| && records[i].text == Fixed(text) && records[i].hash == h
  }

  ghost predicate CacheExact(hash: string -> Hash, s: LogState) {
    forall f :: f in s.cache ==> s.cache[f] == hash(f)
  }

  ghost predicate AllDeclared(s: LogState) {
    forall f :: f in s.cache ==> Declared(s.records, f, s.cache[f])
  }

  ghost predicate StoredOnce(s: LogState) {
    && (forall i, j :: 0 <= i < j < |s.stored| ==> s.stored[i] != s.stored[j])
    && (s.manager ==> forall i :: 0 <= i < |s.stored| ==> s.stored[i] in s.cache)
  }

  ghost predicate CacheOk(hash: string -> Hash, s: LogState) {
    CacheExact(hash, s) && StoredOnce(s) && (s.manager ==> AllDeclared(s))
  }

  lemma DeclaredPush(records: seq<Record>, r: Record, text: string, h: Hash)
    ensures Declared(records, text, h) ==> Declared(records + [r], text, h)
    ensures r.text == Fixed(text) && r.hash == h ==> Declared(records + [r], text, h)
  {
    var more := records + [r];
    assert more[|records|] == r;
    if i :| 0 <= i < |records| && records[i].text == Fixed(text) && records[i].hash == h {
      assert more[i] == records[i];
    }
  }

  lemma StoreKeeps(hash: string -> Hash, s: LogState, file: string, kind: Kind)
    requires CacheOk(hash, s) && (file in s.cache || s.manager)
    ensures CacheOk(hash, Store(hash, s, file, kind)) && Store(hash, s, file, kind).manager == s.manager
    ensures s.manager ==> Declared(Store(hash, s, file, kind).records, file, hash(file))
  {
    var t := Store(hash, s, file, kind);
    if file !in s.cache {
      forall f | f in t.cache ensures Declared(t.records, f, t.cache[f]) {
        DeclaredPush(s.records, Record(Fixed(file), hash(file), kind), f, t.cache[f]);
      }
    }
  }

  lemma {:induction false} StoreAllKeeps(hash: string -> Hash, s: LogState, files: seq<(string, Kind)>)
    requires CacheOk(hash, s) && s.manager
    ensures CacheOk(hash, StoreAll(hash, s, files)) && StoreAll(hash, s, files).manager
  {
    if files != [] {
      StoreAllKeeps(hash, s, files[..|files| - 1]);
      StoreKeeps(hash, StoreAll(hash, s, files[..|files| - 1]), files[|files| - 1].0, files[|files| - 1].1);
    }
  }

  lemma HostKeeps(hash: string -> Hash, s: LogState, host: string)
    requires CacheOk(hash, s)
    ensures var s' := s.(cache := s.cache[host := hash(host)]);
      CacheOk(hash, if s.manager then s'.(records := s.records + [Record(Fixed(host), hash(host), HostnameHash)]) else s')
  {
    var r, c := Record(Fixed(host), hash(host), HostnameHash), s.cache[host := hash(host)];
    if s.manager {
      forall f | f in c ensures Declared(s.records + [r], f, c[f]) {
        DeclaredPush(s.records, r, f, c[f]);
      }
    }
  }

  lemma StepKeeps(hash: string -> Hash, s: LogState, op: Op)
    requires CacheOk(hash, s) && Enabled(s, op)
    ensures CacheOk(hash, After(hash, s, op))
    ensures op.HashAndStore? && op.file.Some? && s.manager ==> Declared(After(hash, s, op).records, op.file.value, hash(op.file.value))
  {
    match op
    case HashAndStore(file, kind) =>
      if file.Some? { StoreKeeps(hash, s, file.value, kind); }
    case UpdateLogFile(host, cwd, cmd, exec, includeMetadata) =>
      HostKeeps(hash, s, host);
      if s.manager && includeMetadata {
        var t := LogState(s.cache[host := hash(host)], s.records + [Record(Fixed(host), hash(host), HostnameHash)], true, s.stored);
        StoreAllKeeps(hash, t, StartTexts(cwd, cmd, exec));
      }
    case Finalize =>
  }

  /**
   * In every sequential run the cache agrees with hashing anew, `hash_and_store_str` declares no string twice, and while
   * there is a trace every cached hash, the host's included, is declared in it.
   */
  lemma {:induction false} CacheAgrees(hash: string -> Hash, manager: bool, ops: seq<Op>)
    requires Possible(hash, manager, ops)
    ensures CacheOk(hash, Run(hash, manager, ops))
  {
    if ops != [] {
      CacheAgrees(hash, manager, ops[..|ops| - 1]);
      StepKeeps(hash, Run(hash, manager, ops[..|ops| - 1]), ops[|ops| - 1]);
    }
  }

  // ----- What the start of a trace declares -----

  /** The record of a text under a kind, unless the text has been met before. */
  function FirstRecord(hash: string -> Hash, text: string, kind: Kind, met: set<string>): seq<Record> {
    if text in met then [] else [Record(Fixed(text), hash(text), kind)]
  }

  lemma StoreAdds(hash: string -> Hash, s: LogState, text: string, kind: Kind)
    ensures var t := Store(hash, s, text, kind);
      && t.records == s.records + FirstRecord(hash, text, kind, s.cache.Keys) && t.cache.Keys == s.cache.Keys + {text}
  {}

  /** One text hashed and stored: its record under its own kind, if it has not been met. */
  lemma OneDeclared(hash: string -> Hash, s: LogState, text: string, kind: Kind)
    ensures After(hash, s, HashAndStore(Some(text), kind)).records == s.records + FirstRecord(hash, text, kind, s.cache.Keys)
  {
    StoreAdds(hash, s, text, kind);
  }

  /** Command and executable: strings. */
  lemma TwoDeclared(hash: string -> Hash, s: LogState, cmd: string, exec: string)
    ensures StoreAll(hash, s, [(cmd, StringHash), (exec, StringHash)]).records == s.records
      + FirstRecord(hash, cmd, StringHash, s.cache.Keys) + FirstRecord(hash, exec, StringHash, s.cache.Keys + {cmd})
  {
    var t := Store(hash, s, cmd, StringHash);
    assert [(cmd, StringHash), (exec, StringHash)] == [(cmd, StringHash)] + [(exec, StringHash)];
    StoreAllPush(hash, s, [(cmd, StringHash)], (exec, StringHash));
    OneStored(hash, s, cmd, StringHash);
    StoreAdds(hash, s, cmd, StringHash);
    StoreAdds(hash, t, exec, StringHash);
  }

  lemma OneStored(hash: string -> Hash, s: LogState, text: string, kind: Kind)
    ensures StoreAll(hash, s, [(text, kind)]) == Store(hash, s, text, kind)
  {
    assert [(text, kind)][..0] == [];
  }

  lemma StoredAfter(hash: string -> Hash, s: LogState, first: (string, Kind), a: (string, Kind), b: (string, Kind))
    ensures StoreAll(hash, s, [first, a, b]) == StoreAll(hash, Store(hash, s, first.0, first.1), [a, b])
  {
    var t := Store(hash, s, first.0, first.1);
    assert [first, a, b] == [first, a] + [b] && [first, a] == [first] + [a] && [a, b] == [a] + [b];
    StoreAllPush(hash, s, [first, a], b);
    StoreAllPush(hash, s, [first], a);
    OneStored(hash, s, first.0, first.1);
    StoreAllPush(hash, t, [a], b);
    OneStored(hash, t, a.0, a.1);
  }

  /** Before them the directory: a file. */
  lemma ThreeDeclared(hash: string -> Hash, s: LogState, cwd: string, cmd: string, exec: string)
    ensures StoreAll(hash, s, [(cwd, FileHash), (cmd, StringHash), (exec, StringHash)]).records == s.records
      + FirstRecord(hash, cwd, FileHash, s.cache.Keys) + FirstRecord(hash, cmd, StringHash, s.cache.Keys + {cwd})
      + FirstRecord(hash, exec, StringHash, s.cache.Keys + {cwd} + {cmd})
  {
    StoredAfter(hash, s, (cwd, FileHash), (cmd, StringHash), (exec, StringHash));
    StoreAdds(hash, s, cwd, FileHash);
    TwoDeclared(hash, Store(hash, s, cwd, FileHash), cmd, exec);
  }

  lemma TextsListed(cwd: Option<string>, cmd: string, exec: string)
    ensures var c, x := CText(Fixed(cmd)), CText(Fixed(exec));
      StartTexts(cwd, cmd, exec) == match cwd
        case Some(d) => [(d, FileHash), (c, StringHash), (x, StringHash)]
        case None => [(c, StringHash), (x, StringHash)]
  {}

  /** A trace begins with its host, and with metadata its directory, command and executable, each under its own kind and once. */
  lemma StartDeclares(hash: string -> Hash, s: LogState, host: string, cwd: Option<string>, cmd: string, exec: string,
                      includeMetadata: bool)
    requires s.manager
    ensures var c, x := CText(Fixed(cmd)), CText(Fixed(exec));
      var begun, met := s.records + [Record(Fixed(host), hash(host), HostnameHash)], s.cache.Keys + {host};
      After(hash, s, UpdateLogFile(host, cwd, cmd, exec, includeMetadata)).records ==
        if !includeMetadata then begun
        else match cwd
          case None => begun + FirstRecord(hash, c, StringHash, met) + FirstRecord(hash, x, StringHash, met + {c})
          case Some(d) =>
            begun + FirstRecord(hash, d, FileHash, met) + FirstRecord(hash, c, StringHash, met + {d})
            + FirstRecord(hash, x, StringHash, met + {d} + {c})
  {
    var t := LogState(s.cache[host := hash(host)], s.records + [Record(Fixed(host), hash(host), HostnameHash)], true, s.stored);
    assert t.cache.Keys == s.cache.Keys + {host};
    TextsListed(cwd, cmd, exec);
    TwoDeclared(hash, t, CText(Fixed(cmd)), CText(Fixed(exec)));
    if cwd.Some? {
      ThreeDeclared(hash, t, cwd.value, CText(Fixed(cmd)), CText(Fixed(exec)));
    }
  }

  /** `update_log_file` declares the host's hash exactly when there is a trace; without one it is cached all the same. */
  lemma HostDeclaredIff(hash: string -> Hash, s: LogState, host: string, cwd: Option<string>, cmd: string, exec: string, includeMetadata: bool)
    requires CacheOk(hash, s) && !Declared(s.records, host, hash(host))
    ensures var t := After(hash, s, UpdateLogFile(host, cwd, cmd, exec, includeMetadata));
      host in t.cache && (Declared(t.records, host, hash(host)) <==> s.manager)
  {
    var op := UpdateLogFile(host, cwd, cmd, exec, includeMetadata);
    StepKeeps(hash, s, op);
    var after := After(hash, s, op);
    assert host in after.cache ==> after.cache[host] == hash(host);
    var t := LogState(s.cache[host := hash(host)], s.records + [Record(Fixed(host), hash(host), HostnameHash)], s.manager, s.stored);
    if s.manager && includeMetadata {
      StoreAllGrows(hash, t, StartTexts(cwd, cmd, exec), host);
    }
  }

  lemma StoreAllPush(hash: string -> Hash, s: LogState, files: seq<(string, Kind)>, next: (string, Kind))
    ensures StoreAll(hash, s, files + [next]) == Store(hash, StoreAll(hash, s, files), next.0, next.1)
  {
    assert (files + [next])[..|files|] == files;
  }

  lemma {:induction false} StoreAllGrows(hash: string -> Hash, s: LogState, files: seq<(string, Kind)>, key: string)
    requires key in s.cache
    ensures key in StoreAll(hash, s, files).cache && StoreAll(hash, s, files).manager == s.manager
  {
    if files != [] {
      StoreAllGrows(hash, s, files[..|files| - 1], key);
    }
  }

  // ----- The logger -----

  class Logger {
    const hash: string -> Hash
    var computedHash: map<string, Hash>
    var records: seq<Record>
    var manager: bool
    ghost var stored: seq<string>

    ghost function Abs(): LogState
      reads this
    {
      LogState(computedHash, records, manager, stored)
    }

    constructor (hash: string -> Hash, manager: bool)
      ensures this.hash == hash && Abs() == Run(hash, manager, [])
    {
      this.hash, this.manager := hash, manager;
      computedHash, records, stored := map[], [], [];
    }

    function HasHash(key: string): Option<Hash>
      reads this
    {
      if key in computedHash then Some(computedHash[key]) else None
    }

    /** The returned hash is the text's own, and the trace declares it. */
    method HashAndStore(file: Option<string>, kind: Kind) returns (h: Option<Hash>)
      requires CacheOk(hash, Abs()) && manager
      modifies this
      ensures Abs() == After(hash, old(Abs()), Op.HashAndStore(file, kind)) && CacheOk(hash, Abs())
      ensures file.None? ==> h == None
      ensures file.Some? ==> h == Some(hash(file.value)) && Declared(records, file.value, hash(file.value))
    {
      StepKeeps(hash, Abs(), Op.HashAndStore(file, kind));
      if file.None? {
        return None;
      }
      h := HasHash(file.value);
      if h.None? {
        h := Some(hash(file.value));
        computedHash := computedHash[file.value := h.value];
        var buffer := new char[|file.value|](i requires 0 <= i < |file.value| => file.value[i]);
        assert buffer[..] == file.value;
        FixStr(buffer);
        records := records + [Record(buffer[..], h.value, kind)];
        stored := stored + [file.value];
      }
    }

    method UpdateLogFile(host: string, cwd: Option<string>, cmd: string, exec: string, includeMetadata: bool)
      requires CacheOk(hash, Abs())
      modifies this
      ensures Abs() == After(hash, old(Abs()), Op.UpdateLogFile(host, cwd, cmd, exec, includeMetadata))
      ensures CacheOk(hash, Abs())
    {
      StepKeeps(hash, Abs(), Op.UpdateLogFile(host, cwd, cmd, exec, includeMetadata));
      HostKeeps(hash, Abs(), host);
      computedHash := computedHash[host := hash(host)];
      if !manager {
        return;
      }
      records := records + [Record(Fixed(host), hash(host), HostnameHash)];
      if includeMetadata {
        StoreStartTexts(cwd, cmd, exec);
      }
    }

    method StoreStartTexts(cwd: Option<string>, cmd: string, exec: string)
      requires CacheOk(hash, Abs()) && manager
      modifies this
      ensures Abs() == StoreAll(hash, old(Abs()), StartTexts(cwd, cmd, exec)) && CacheOk(hash, Abs())
    {
      ghost var before, texts := Abs(), [];
      if cwd.Some? {
        var _ := HashAndStore(cwd, FileHash);
        StoreAllPush(hash, before, texts, (cwd.value, FileHash));
        texts := texts + [(cwd.value, FileHash)];
      }
      var _ := HashAndStore(Some(CText(Fixed(cmd))), StringHash);
      StoreAllPush(hash, before, texts, (CText(Fixed(cmd)), StringHash));
      texts := texts + [(CText(Fixed(cmd)), StringHash)];
      var _ := HashAndStore(Some(CText(Fixed(exec))), StringHash);
      StoreAllPush(hash, before, texts, (CText(Fixed(exec)), StringHash));
      texts := texts + [(CText(Fixed(exec)), StringHash)];
      assert texts == StartTexts(cwd, cmd, exec);
    }

    method FinalizeLogger()
      requires CacheOk(hash, Abs())
      modifies this
      ensures Abs() == After(hash, old(Abs()), Op.Finalize) && CacheOk(hash, Abs())
    {
      manager := false;
      computedHash := map[];
    }
  }
}
