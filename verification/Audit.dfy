// The append-only audit store: a file of hash-linked events, a cache of the last event of every
// execution that must not disagree with it, and writes that may stop anywhere.

module Audit {
  import opened Wrappers

  datatype Key = Key(tenant: Option<string>, execution: string)

  // What an event's digest covers. Digests are taken to be collision-free, so a digest is its content.
  datatype Content = Content(key: Key, sequence: nat, kind: string, payload: string, retentionDays: nat, previous: Option<Content>)

  datatype AuditEvent = AuditEvent(content: Content, digest: Content)

  datatype Record = Record(event: AuditEvent, storedAt: int, expiresAt: int)

  const SECONDS_PER_DAY := 86400

  predicate Verifies(e: AuditEvent) {
    e.digest == e.content && e.content.retentionDays > 0
  }

  predicate ProperlyStored(r: Record) {
    Verifies(r.event) && r.expiresAt == r.storedAt + r.event.content.retentionDays * SECONDS_PER_DAY
  }

  function KeyOf(r: Record): Key {
    r.event.content.key
  }

  type Tails = map<Key, Content>

  function TailAt(tails: Tails, key: Key): Option<Content> {
    if key in tails then Some(tails[key]) else None
  }

  // The event continues the chain that ends in the given tail.
  predicate Follows(tail: Option<Content>, c: Content) {
    c.previous == tail && c.sequence == match tail case None => 1 case Some(t) => t.sequence + 1
  }

  // What reading the whole log and checking it comes to: the last event of every execution.
  function Load(log: seq<Record>): Option<Tails> {
    if log == [] then Some(map[])
    else
      var last := log[|log| - 1];
      match Load(log[..|log| - 1])
      case None => None
      case Some(tails) =>
        if ProperlyStored(last) && Follows(TailAt(tails, KeyOf(last)), last.event.content)
        then Some(tails[KeyOf(last) := last.event.content])
        else None
  }

  // ---------- what a log that loads is ----------

  function Of(log: seq<Record>, key: Key): seq<Record> {
    if log == [] then []
    else
      var last := log[|log| - 1];
      Of(log[..|log| - 1], key) + if KeyOf(last) == key then [last] else []
  }

  predicate ChainedAt(records: seq<Record>, i: nat)
    requires i < |records|
  {
    var (event, stored, expires) := (records[i].event, records[i].storedAt, records[i].expiresAt);
    && event.digest == event.content && event.content.retentionDays >= 1
    && expires - stored == event.content.retentionDays * 24 * 60 * 60
    && event.content.sequence == i + 1
    && event.content.previous == if i == 0 then None else Some(records[i - 1].event.digest)
  }

  // Numbered from one, each event its own digest's, carrying the digest of the one before it, and kept for
  // whole days, at least one.
  predicate FullChain(records: seq<Record>) {
    forall i | 0 <= i < |records| :: ChainedAt(records, i)
  }

  function LastOf(records: seq<Record>): Option<Content> {
    if records == [] then None else Some(records[|records| - 1].event.content)
  }

  lemma ChainMore(records: seq<Record>, r: Record)
    ensures FullChain(records + [r]) <==> FullChain(records) && ProperlyStored(r) && Follows(LastOf(records), r.event.content)
  {
    var longer := records + [r];
    forall i | 0 <= i < |records| ensures ChainedAt(longer, i) <==> ChainedAt(records, i) {
      assert longer[i] == records[i];
      assert i > 0 ==> longer[i - 1] == records[i - 1];
    }
    assert longer[|records|] == r;
    if FullChain(records) {
      if records != [] {
        assert ChainedAt(records, |records| - 1);
        assert longer[|records| - 1] == records[|records| - 1];
      }
      assert ChainedAt(longer, |records|) <==> ProperlyStored(r) && Follows(LastOf(records), r.event.content);
    }
    if FullChain(longer) {
      assert forall i | 0 <= i < |records| :: ChainedAt(longer, i);
    }
  }

  ghost predicate AllChained(log: seq<Record>) {
    forall key :: FullChain(Of(log, key))
  }

  // A log loads exactly when the events of every execution in it form a full chain from one, and
  // what it loads is the last event of each.
  lemma {:induction false} LoadsExactlyFullChains(log: seq<Record>)
    ensures Load(log).Some? <==> AllChained(log)
    ensures Load(log).Some? ==> forall key :: TailAt(Load(log).value, key) == LastOf(Of(log, key))
    decreases |log|
  {
    if log == [] {
      assert AllChained(log);
    } else {
      var last := log[|log| - 1];
      var front := log[..|log| - 1];
      LoadsExactlyFullChains(front);
      var own := Of(front, KeyOf(last));
      assert forall key :: Of(log, key) == if key == KeyOf(last) then Of(front, key) + [last] else Of(front, key);
      ChainMore(own, last);
      hide FullChain, Of, ProperlyStored, Follows;
      if AllChained(log) {
        assert FullChain(own + [last]);
        forall key ensures FullChain(Of(front, key)) {
          assert FullChain(Of(log, key));
        }
      }
    }
  }

  // ---------- removing whole executions ----------

  predicate Retained(removed: set<Key>, r: Record) {
    KeyOf(r) !in removed
  }

  function Keep(log: seq<Record>, removed: set<Key>): seq<Record> {
    if log == [] then []
    else
      var last := log[|log| - 1];
      Keep(log[..|log| - 1], removed) + if Retained(removed, last) then [last] else []
  }

  lemma {:induction false} KeepingWholeExecutions(log: seq<Record>, removed: set<Key>, key: Key)
    ensures Of(Keep(log, removed), key) == if key in removed then [] else Of(log, key)
    decreases |log|
  {
    if log != [] {
      var last := log[|log| - 1];
      var front := log[..|log| - 1];
      KeepingWholeExecutions(front, removed, key);
      var kept := Keep(front, removed);
      if Retained(removed, last) {
        assert (kept + [last])[..|kept|] == kept;
      } else {
        assert Keep(log, removed) == kept + [] == kept;
      }
    }
  }

  // What is left after removing whole executions loads exactly when every other execution is a full chain.
  lemma {:induction false} RemovalLoads(log: seq<Record>, removed: set<Key>)
    ensures Load(Keep(log, removed)).Some? <==> forall key | key !in removed :: FullChain(Of(log, key))
  {
    LoadsExactlyFullChains(Keep(log, removed));
    forall key ensures Of(Keep(log, removed), key) == if key in removed then [] else Of(log, key) {
      KeepingWholeExecutions(log, removed, key);
    }
    hide Load, Of, Keep;
    if AllChained(Keep(log, removed)) {
      forall key | key !in removed ensures FullChain(Of(log, key)) {
        assert FullChain(Of(Keep(log, removed), key));
      }
    }
    assert FullChain([]);
  }

  // Removing whole executions leaves a log that loads, with the other executions' tails unchanged.
  lemma {:induction false} RemovalReloads(log: seq<Record>, removed: set<Key>)
    requires Load(log).Some?
    ensures Load(Keep(log, removed)) == Some(Load(log).value - removed)
  {
    LoadsExactlyFullChains(log);
    LoadsExactlyFullChains(Keep(log, removed));
    forall key ensures Of(Keep(log, removed), key) == if key in removed then [] else Of(log, key) {
      KeepingWholeExecutions(log, removed, key);
    }
    hide Load, Of, Keep;
    forall key ensures FullChain(Of(Keep(log, removed), key)) {
      assert FullChain(Of(log, key)) && FullChain([]);
    }
    var tails := Load(Keep(log, removed)).value;
    var expected := Load(log).value - removed;
    forall key ensures TailAt(tails, key) == TailAt(expected, key) {
      assert TailAt(Load(log).value, key) == LastOf(Of(log, key));
    }
    SameTails(tails, expected);
  }

  lemma SameTails(a: Tails, b: Tails)
    requires forall key :: TailAt(a, key) == TailAt(b, key)
    ensures a == b
  {
    forall key ensures key in a <==> key in b {
      assert TailAt(a, key) == TailAt(b, key);
    }
    forall key | key in a ensures a[key] == b[key] {
      assert TailAt(a, key) == TailAt(b, key);
    }
  }

  lemma {:induction false} KeepingNothingOut(log: seq<Record>, removed: set<Key>)
    ensures |Keep(log, removed)| <= |log|
    ensures |Keep(log, removed)| == |log| ==> Keep(log, removed) == log
    ensures |Keep(log, removed)| == |log| ==> forall i | 0 <= i < |log| :: KeyOf(log[i]) !in removed
    decreases |log|
  {
    if log != [] {
      KeepingNothingOut(log[..|log| - 1], removed);
      assert log == log[..|log| - 1] + [log[|log| - 1]];
    }
  }

  // The executions all of whose records have expired.
  ghost predicate Expired(log: seq<Record>, key: Key, now: int) {
    Of(log, key) != [] && forall i | 0 <= i < |Of(log, key)| :: Of(log, key)[i].expiresAt <= now
  }

  // ---------- the file ----------

  // How far the writing of one line came.
  datatype Reached = Nothing | Partway | AllButNewline | Everything

  // After its whole lines a file may hold one more record that lacks its newline. In a garbled file
  // some line is no record: a part of one, or two that were joined.
  datatype End = Ended | Unended(last: Record) | Garbled

  datatype File = File(lines: seq<Record>, end: End)

  const EMPTY := File([], Ended)

  function Records(f: File): seq<Record> {
    f.lines + if f.end.Unended? then [f.end.last] else []
  }

  // Reading takes the file line by line and checks each record by itself.
  predicate Readable(f: File) {
    !f.end.Garbled? && forall i | 0 <= i < |Records(f)| :: ProperlyStored(Records(f)[i])
  }

  function LoadFile(f: File): Option<Tails> {
    if f.end.Garbled? then None else Load(Records(f))
  }

  // Writing a line at the end of the file. A line that meets an unended one is joined to it.
  function Put(f: File, r: Record, reached: Reached): File {
    if reached.Nothing? || f.end.Garbled? then f
    else if f.end.Unended? || reached.Partway? then f.(end := Garbled)
    else if reached.AllButNewline? then f.(end := Unended(r))
    else f.(lines := f.lines + [r])
  }

  // How a rewrite of the whole file ends: it may fail before the file is touched, or after so many
  // lines and a part of the next.
  datatype Rewrite = Completed | Untouched | StoppedAt(lines: nat, reached: Reached)

  function Rewritten(f: File, retained: seq<Record>, rewrite: Rewrite): File {
    match rewrite
    case Untouched => f
    case Completed => File(retained, Ended)
    case StoppedAt(n, reached) =>
      if n < |retained| then Put(File(retained[..n], Ended), retained[n], reached) else File(retained, Ended)
  }

  // The rewrite stopped inside a line.
  predicate Tears(retained: seq<Record>, rewrite: Rewrite) {
    rewrite.StoppedAt? && rewrite.lines < |retained| && rewrite.reached.Partway?
  }

  lemma LoadedAreReadable(f: File)
    requires LoadFile(f).Some?
    ensures Readable(f)
  {
    AllStored(Records(f));
  }

  lemma {:induction false} AllStored(log: seq<Record>)
    requires Load(log).Some?
    ensures forall i | 0 <= i < |log| :: ProperlyStored(log[i])
    decreases |log|
  {
    if log != [] {
      AllStored(log[..|log| - 1]);
      assert forall i | 0 <= i < |log| - 1 :: log[i] == log[..|log| - 1][i];
    }
  }

  lemma LoadMore(log: seq<Record>, r: Record)
    ensures Load(log + [r]) == match Load(log)
      case None => None
      case Some(tails) =>
        if ProperlyStored(r) && Follows(TailAt(tails, KeyOf(r)), r.event.content) then Some(tails[KeyOf(r) := r.event.content]) else None
  {
    assert (log + [r])[..|log|] == log;
  }

  // A rewrite that failed leaves a file that loads exactly when it did not stop inside a line.
  lemma RewrittenLoads(f: File, retained: seq<Record>, rewrite: Rewrite)
    requires LoadFile(f).Some? && Load(retained).Some?
    ensures LoadFile(Rewritten(f, retained, rewrite)).Some? <==> !Tears(retained, rewrite)
  {
    if rewrite.StoppedAt? && rewrite.lines < |retained| {
      var n := rewrite.lines;
      CutLoads(retained, n);
      CutLoads(retained, n + 1);
      assert retained[..n + 1] == retained[..n] + [retained[n]];
      assert Records(File(retained[..n], Ended)) == retained[..n];
      assert Records(File(retained[..n + 1], Ended)) == retained[..n + 1];
    } else {
      assert Records(File(retained, Ended)) == retained;
    }
  }

  // What is written of retained lines holds no record of the removed executions.
  lemma {:induction false} RewrittenForgets(f: File, log: seq<Record>, removed: set<Key>, rewrite: Rewrite, key: Key)
    requires !rewrite.Untouched? && key in removed
    ensures Of(Records(Rewritten(f, Keep(log, removed), rewrite)), key) == []
  {
    var retained := Keep(log, removed);
    KeptAreRetained(log, removed);
    var records := Records(Rewritten(f, retained, rewrite));
    assert forall i | 0 <= i < |records| :: records[i] in retained;
    hide Keep, Rewritten;
    NoneOf(records, key);
  }

  lemma {:induction false} KeptAreRetained(log: seq<Record>, removed: set<Key>)
    ensures forall r | r in Keep(log, removed) :: Retained(removed, r)
    decreases |log|
  {
    if log != [] {
      KeptAreRetained(log[..|log| - 1], removed);
    }
  }

  lemma {:induction false} NoneOf(log: seq<Record>, key: Key)
    requires forall i | 0 <= i < |log| :: KeyOf(log[i]) != key
    ensures Of(log, key) == []
    decreases |log|
  {
    if log != [] {
      NoneOf(log[..|log| - 1], key);
    }
  }

  // Nothing is removed when no record is of a removed execution, and something otherwise.
  lemma {:induction false} KeptWhenAbsent(log: seq<Record>, removed: set<Key>)
    ensures Keep(log, removed) != log <==> exists key :: key in removed && Of(log, key) != []
  {
    KeepingNothingOut(log, removed);
    if Keep(log, removed) != log {
      SomethingRemoved(log, removed);
    } else {
      forall key | key in removed ensures Of(log, key) == [] {
        KeepingWholeExecutions(log, removed, key);
      }
    }
  }

  lemma {:induction false} SomethingRemoved(log: seq<Record>, removed: set<Key>)
    requires Keep(log, removed) != log
    ensures exists key :: key in removed && Of(log, key) != []
    decreases |log|
  {
    var last := log[|log| - 1];
    var front := log[..|log| - 1];
    if Retained(removed, last) {
      assert log == front + [last];
      SomethingRemoved(front, removed);
      var key :| key in removed && Of(front, key) != [];
      assert Of(log, key) != [];
    } else {
      assert Of(log, KeyOf(last)) != [];
    }
  }

  lemma CutLoads(log: seq<Record>, n: nat)
    requires Load(log).Some? && n <= |log|
    ensures Load(log[..n]).Some?
  {
    if Load(log[..n]).None? {
      BrokenPrefix(log, n);
    }
  }

  lemma {:induction false} BrokenPrefix(log: seq<Record>, n: nat)
    requires n <= |log| && Load(log[..n]).None?
    ensures Load(log).None?
    decreases |log| - n
  {
    if n == |log| {
      assert log[..n] == log;
    } else {
      assert log[..n + 1][..n] == log[..n];
      BrokenPrefix(log, n + 1);
    }
  }

  // ---------- the store ----------

  datatype AppendResult = Appended | Rejected | Discontinuous | StorageFailed

  // A removal reads the file, rewrites it without some executions, and verifies it anew.
  datatype Removal = Unreadable | RewriteFailed | Unverified | Removed(count: nat)

  // The cache is right, and the next line will start on a line of its own.
  predicate Sound(f: File, tails: Tails) {
    f.end.Ended? && LoadFile(f) == Some(tails)
  }

  // What a line written under a given cache does to the file: it loads afterwards exactly when the
  // cache knew the true end of the event's chain and the line stands whole and alone.
  lemma WritingALine(f: File, tails: Tails, r: Record, reached: Reached)
    requires ProperlyStored(r) && Follows(TailAt(tails, KeyOf(r)), r.event.content) && LoadFile(f).Some?
    ensures LoadFile(Put(f, r, reached)).Some? <==>
      reached.Nothing? || (f.end.Ended? && !reached.Partway? && TailAt(tails, KeyOf(r)) == TailAt(LoadFile(f).value, KeyOf(r)))
    ensures LoadFile(Put(f, r, reached)).Some? && !reached.Nothing? ==>
      LoadFile(Put(f, r, reached)) == Some(LoadFile(f).value[KeyOf(r) := r.event.content])
  {
    if f.end.Ended? && !reached.Nothing? && !reached.Partway? {
      LoadMore(f.lines, r);
      assert Records(f) == f.lines && Records(Put(f, r, reached)) == f.lines + [r];
    }
  }

  // No append makes an unsound store sound, and a sound one stays so exactly when the line was written
  // or not begun.
  lemma AppendingKeepsSound(f: File, tails: Tails, r: Record, fails: Option<Reached>)
    requires ProperlyStored(r) && Follows(TailAt(tails, KeyOf(r)), r.event.content)
    ensures var g := Put(f, r, match fails case None => Everything case Some(reached) => reached);
      var cache := if fails.None? then tails[KeyOf(r) := r.event.content] else tails;
      Sound(g, cache) <==> Sound(f, tails) && (fails.None? || fails.value.Nothing?)
  {
    var reached := match fails case None => Everything case Some(reached) => reached;
    var key := KeyOf(r);
    if f.end.Ended? && !reached.Nothing? && !reached.Partway? {
      LoadMore(f.lines, r);
      assert Records(f) == f.lines && Records(Put(f, r, reached)) == f.lines + [r];
      if Load(f.lines).Some? {
        var loaded := Load(f.lines).value;
        var cache := if fails.None? then tails[key := r.event.content] else tails;
        hide Load;
        if loaded != tails && loaded[key := r.event.content] == cache && TailAt(loaded, key) == TailAt(tails, key) && fails.None? {
          SameElsewhere(loaded, tails, key, r.event.content);
        }
        assert TailAt(loaded[key := r.event.content], key) == Some(r.event.content) != TailAt(tails, key);
      }
    }
  }

  lemma SameElsewhere(a: Tails, b: Tails, key: Key, c: Content)
    requires a[key := c] == b[key := c] && TailAt(a, key) == TailAt(b, key)
    ensures a == b
  {
    forall other ensures TailAt(a, other) == TailAt(b, other) {
      assert TailAt(a[key := c], other) == TailAt(b[key := c], other);
    }
    SameTails(a, b);
  }

  // The records of each execution, in log order.
  method GroupByExecution(records: seq<Record>) returns (grouped: map<Key, seq<Record>>)
    ensures forall key :: (if key in grouped then grouped[key] else []) == Of(records, key)
    ensures forall key | key in grouped :: grouped[key] != []
  {
    grouped := map[];
    for i := 0 to |records|
      invariant forall key :: (if key in grouped then grouped[key] else []) == Of(records[..i], key)
      invariant forall key | key in grouped :: grouped[key] != []
    {
      assert records[..i + 1][..i] == records[..i];
      var key := KeyOf(records[i]);
      var group := if key in grouped then grouped[key] else [];
      grouped := grouped[key := group + [records[i]]];
    }
    assert records[..|records|] == records;
  }

  class JsonlAuditStore {
    var file: File
    var tails: Tails

    constructor ()
      ensures Valid() && file == EMPTY && tails == map[]
    {
      file, tails := EMPTY, map[];
    }

    predicate Valid()
      reads this
    {
      Sound(file, tails)
    }

    // `fails` says how far the line came when the file system failed, if it did. A taken event keeps
    // a file that loads loadable exactly when the cache knew the true end of its chain.
    method Append(event: AuditEvent, now: int, fails: Option<Reached>) returns (r: AppendResult)
      modifies this
      ensures r == if !Verifies(event) then Rejected
                   else if !old(Follows(TailAt(tails, event.content.key), event.content)) then Discontinuous
                   else if fails.Some? then StorageFailed
                   else Appended
      ensures r == Appended || r == StorageFailed ==>
        file == Put(old(file), Record(event, now, now + event.content.retentionDays * SECONDS_PER_DAY),
                    match fails case None => Everything case Some(reached) => reached)
      ensures r == Rejected || r == Discontinuous ==> file == old(file)
      ensures tails == if r == Appended then old(tails)[event.content.key := event.content] else old(tails)
      ensures Valid() <==> old(Valid()) && (r == StorageFailed ==> fails == Some(Nothing))
      ensures r == Appended && old(LoadFile(file).Some?) ==>
        (LoadFile(file).Some? <==>
          old(file.end.Ended? && TailAt(tails, event.content.key) == TailAt(LoadFile(file).value, event.content.key)))
    {
      if !Verifies(event) {
        return Rejected;
      }
      var key := event.content.key;
      var sequence := if key in tails then tails[key].sequence + 1 else 1;
      var previous := if key in tails then Some(tails[key]) else None;
      if event.content.sequence != sequence || event.content.previous != previous {
        return Discontinuous;
      }
      var record := Record(event, now, now + event.content.retentionDays * SECONDS_PER_DAY);
      AppendingKeepsSound(file, tails, record, fails);
      if LoadFile(file).Some? {
        WritingALine(file, tails, record, Everything);
      }
      if fails.Some? {
        file := Put(file, record, fails.value);
        return StorageFailed;
      }
      file := Put(file, record, Everything);
      tails := tails[key := event.content];
      return Appended;
    }

    method LoadAndVerify() returns (ok: bool)
      modifies this`tails
      ensures ok == LoadFile(file).Some? && (ok ==> LoadFile(file) == Some(tails))
    {
      tails := map[];
      if file.end.Garbled? {
        return false;
      }
      var log := Records(file);
      for i := 0 to |log|
        invariant Load(log[..i]) == Some(tails)
      {
        assert log[..i + 1][..i] == log[..i];
        var c := log[i].event.content;
        var sequence := if c.key in tails then tails[c.key].sequence + 1 else 1;
        var previous := if c.key in tails then Some(tails[c.key]) else None;
        if !ProperlyStored(log[i]) || c.sequence != sequence || c.previous != previous {
          BrokenPrefix(log, i + 1);
          return false;
        }
        tails := tails[c.key := c];
      }
      assert log[..|log|] == log;
      return true;
    }

    method RewriteWithout(removed: set<Key>, rewrite: Rewrite) returns (r: Removal)
      modifies this
      ensures Without(old(file), old(tails), removed, rewrite, r, file, tails)
    {
      if !Readable(file) {
        return Unreadable;
      }
      var log := Records(file);
      var retained: seq<Record> := [];
      for i := 0 to |log|
        invariant retained == Keep(log[..i], removed)
      {
        assert log[..i + 1][..i] == log[..i];
        if Retained(removed, log[i]) {
          retained := retained + [log[i]];
        }
      }
      assert log[..|log|] == log;
      KeepingNothingOut(log, removed);
      var count := |log| - |retained|;
      if count > 0 {
        file := Rewritten(file, retained, rewrite);
        if rewrite != Completed {
          return RewriteFailed;
        }
        assert Records(file) == retained;
        var ok := LoadAndVerify();
        if !ok {
          return Unverified;
        }
      }
      return Removed(count);
    }

    method DeleteExecution(tenant: string, execution: string, rewrite: Rewrite) returns (r: Removal)
      modifies this
      ensures var key := Key(Some(tenant), execution);
        && Without(old(file), old(tails), {key}, rewrite, r, file, tails)
        && Exact(old(file), old(tails), {key}, rewrite, r, file, tails)
    {
      ghost var key := Key(Some(tenant), execution);
      ghost var f, before := file, tails;
      r := RewriteWithout({Key(Some(tenant), execution)}, rewrite);
      WithoutIsExact(f, before, {key}, rewrite, r, file, tails);
    }

    // Exactly the executions whose every record has expired go, each as a whole.
    method PurgeExpired(now: int, rewrite: Rewrite) returns (r: Removal)
      modifies this
      ensures var removed := ExpiredKeys(Records(old(file)), now);
        && Without(old(file), old(tails), removed, rewrite, r, file, tails)
        && Exact(old(file), old(tails), removed, rewrite, r, file, tails)
    {
      if !Readable(file) {
        WithoutIsExact(file, tails, ExpiredKeys(Records(file), now), rewrite, Unreadable, file, tails);
        return Unreadable;
      }
      var records := Records(file);
      var grouped: map<Key, seq<Record>> := GroupByExecution(records);
      var expired := set key | key in grouped && forall i | 0 <= i < |grouped[key]| :: grouped[key][i].expiresAt <= now;
      assert forall key :: key in expired <==> Expired(records, key, now);
      ExpiredKeysAre(records, expired, now);
      ghost var f, before := file, tails;
      r := RewriteWithout(expired, rewrite);
      WithoutIsExact(f, before, expired, rewrite, r, file, tails);
    }
  }

  // What a removal does: which of its four ends it comes to, and file and cache at each.
  ghost predicate Without(f: File, tails: Tails, removed: set<Key>, rewrite: Rewrite, r: Removal, g: File, cache: Tails) {
    var log := Records(f);
    var retained := Keep(log, removed);
    && (r.Unreadable? <==> !Readable(f))
    && (r.RewriteFailed? <==> Readable(f) && retained != log && !rewrite.Completed?)
    && (r.Unverified? <==> Readable(f) && retained != log && rewrite.Completed? && Load(retained).None?)
    && (r.Removed? ==> r.count == |log| - |retained|)
    && g == (if Readable(f) && retained != log then Rewritten(f, retained, rewrite) else f)
    && (r.Removed? && r.count > 0 ==> Some(cache) == Load(retained))
    && (r.Unverified? || (r.Removed? && r.count > 0) || cache == tails)
  }

  // What that means for the executions: the removed ones are gone and the others as they were, a
  // file that loaded still does unless a line was torn, and the store is left sound exactly when
  // it was not left with a file rewritten in part.
  ghost predicate Exact(f: File, tails: Tails, removed: set<Key>, rewrite: Rewrite, r: Removal, g: File, cache: Tails) {
    && (r.Removed? ==> forall key :: Of(Records(g), key) == if key in removed then [] else Of(Records(f), key))
    && (r.Unverified? ==> exists key :: key !in removed && !FullChain(Of(Records(f), key)))
    && (LoadFile(f).Some? ==>
         && !r.Unreadable? && !r.Unverified?
         && (r.RewriteFailed? <==> !rewrite.Completed? && exists key :: key in removed && Of(Records(f), key) != [])
         && (LoadFile(g).Some? <==> !r.RewriteFailed? || !Tears(Keep(Records(f), removed), rewrite)))
    && (r.Removed? && r.count > 0 ==> Sound(g, cache))
    && (Sound(f, tails) ==>
         && (Sound(g, cache) <==> r.Removed? || rewrite.Untouched?)
         && (r.Removed? ==> cache == tails - removed))
  }

  lemma WithoutIsExact(f: File, tails: Tails, removed: set<Key>, rewrite: Rewrite, r: Removal, g: File, cache: Tails)
    requires Without(f, tails, removed, rewrite, r, g, cache)
    ensures Exact(f, tails, removed, rewrite, r, g, cache)
  {
    hide Load, FullChain, ProperlyStored, Of, Keep;
    var log := Records(f);
    var retained := Keep(log, removed);
    assert Records(File(retained, Ended)) == retained;
    KeepingNothingOut(log, removed);
    RemovalLoads(log, removed);
    if LoadFile(f).Some? {
      WithoutOfLoaded(f, tails, removed, rewrite, r, g, cache);
    }
    if r.Removed? {
      forall key ensures Of(Records(g), key) == if key in removed then [] else Of(log, key) {
        KeepingWholeExecutions(log, removed, key);
      }
    }
    if Sound(f, tails) {
      WithoutOfSound(f, tails, removed, rewrite, r, g, cache);
    }
  }

  lemma WithoutOfLoaded(f: File, tails: Tails, removed: set<Key>, rewrite: Rewrite, r: Removal, g: File, cache: Tails)
    requires Without(f, tails, removed, rewrite, r, g, cache) && LoadFile(f).Some?
    ensures !r.Unreadable? && !r.Unverified?
    ensures r.RewriteFailed? <==> !rewrite.Completed? && exists key :: key in removed && Of(Records(f), key) != []
    ensures LoadFile(g).Some? <==> !r.RewriteFailed? || !Tears(Keep(Records(f), removed), rewrite)
  {
    LoadedAreReadable(f);
    KeptWhenAbsent(Records(f), removed);
    RemovalReloads(Records(f), removed);
    RewrittenLoads(f, Keep(Records(f), removed), rewrite);
    assert Records(File(Keep(Records(f), removed), Ended)) == Keep(Records(f), removed);
    hide Load, Keep, Of, Readable;
  }

  lemma WithoutOfSound(f: File, tails: Tails, removed: set<Key>, rewrite: Rewrite, r: Removal, g: File, cache: Tails)
    requires Without(f, tails, removed, rewrite, r, g, cache) && Sound(f, tails)
    ensures Sound(g, cache) <==> r.Removed? || rewrite.Untouched?
    ensures r.Removed? ==> cache == tails - removed
  {
    WithoutOfLoaded(f, tails, removed, rewrite, r, g, cache);
    KeptWhenAbsent(Records(f), removed);
    RemovalReloads(Records(f), removed);
    KeepingNothingOut(Records(f), removed);
    assert Records(File(Keep(Records(f), removed), Ended)) == Keep(Records(f), removed);
    hide Load, Keep, Of, Readable;
    if r.RewriteFailed? && !rewrite.Untouched? {
      var key :| key in removed && Of(Records(f), key) != [];
      StaleAfterRewrite(f, tails, removed, rewrite, key);
    }
    if r.Removed? && r.count == 0 {
      NothingToForget(f, tails, removed);
    }
  }

  // The cache still knows an execution that the file has lost.
  lemma StaleAfterRewrite(f: File, tails: Tails, removed: set<Key>, rewrite: Rewrite, key: Key)
    requires Sound(f, tails) && !rewrite.Untouched? && key in removed && Of(Records(f), key) != []
    ensures !Sound(Rewritten(f, Keep(Records(f), removed), rewrite), tails)
  {
    var g := Rewritten(f, Keep(Records(f), removed), rewrite);
    RewrittenForgets(f, Records(f), removed, rewrite, key);
    LoadsExactlyFullChains(Records(f));
    LoadsExactlyFullChains(Records(g));
    hide Load, Of, Keep, Rewritten, FullChain;
    assert TailAt(tails, key) == LastOf(Of(Records(f), key)) != None == LastOf(Of(Records(g), key));
  }

  lemma NothingToForget(f: File, tails: Tails, removed: set<Key>)
    requires LoadFile(f) == Some(tails) && forall key | key in removed :: Of(Records(f), key) == []
    ensures tails - removed == tails
  {
    LoadsExactlyFullChains(Records(f));
    hide Load, Of, FullChain;
    forall key ensures TailAt(tails - removed, key) == TailAt(tails, key) {
      assert TailAt(tails, key) == LastOf(Of(Records(f), key));
    }
    SameTails(tails - removed, tails);
  }

  ghost function ExpiredKeys(log: seq<Record>, now: int): set<Key> {
    set r | r in log && Expired(log, KeyOf(r), now) :: KeyOf(r)
  }

  lemma ExpiredKeysAre(log: seq<Record>, expired: set<Key>, now: int)
    requires forall key :: key in expired <==> Expired(log, key, now)
    ensures ExpiredKeys(log, now) == expired
  {
    forall key | key in expired ensures key in ExpiredKeys(log, now) {
      var r := RecordOf(log, key);
      assert Expired(log, KeyOf(r), now);
    }
  }

  lemma {:induction false} RecordOf(log: seq<Record>, key: Key) returns (r: Record)
    requires Of(log, key) != []
    ensures r in log && KeyOf(r) == key
    decreases |log|
  {
    var last := log[|log| - 1];
    if KeyOf(last) == key {
      r := last;
    } else {
      r := RecordOf(log[..|log| - 1], key);
    }
  }

  // ---------- runs of a store ----------

  // One event, whose deletion fails after emptying the file; the next event is still taken, and the
  // file no longer loads.
  method StaleCacheRun(tenant: string, execution: string, kind: string, payload: string, now: int)
    returns (second: AppendResult, reloads: bool)
    ensures second == Appended && !reloads
  {
    var store := new JsonlAuditStore();
    var one := Content(Key(Some(tenant), execution), 1, kind, payload, 1, None);
    var first := store.Append(AuditEvent(one, one), now, None);
    OnlyRecord(Record(AuditEvent(one, one), now, now + SECONDS_PER_DAY));
    hide Of, Keep, Exact;
    assert store.file.lines == [Record(AuditEvent(one, one), now, now + SECONDS_PER_DAY)] == Records(store.file);
    var deleted := store.DeleteExecution(tenant, execution, StoppedAt(0, Nothing));
    assert store.file == EMPTY && Load([]) == Some(map[]);
    hide Load, Without;
    var two := Content(one.key, 2, kind, payload, 1, Some(one));
    second := store.Append(AuditEvent(two, two), now, None);
    reloads := store.LoadAndVerify();
  }

  lemma OnlyRecord(r: Record)
    ensures Keep([r], {KeyOf(r)}) == []
  {
    assert [r][..0] == [];
  }

  datatype Operation =
    | Appending(event: AuditEvent, now: int, fails: Option<Reached>)
    | Deleting(tenant: string, execution: string, rewrite: Rewrite)
    | Purging(at: int, rewrite: Rewrite)
    | Reloading

  // No write of the operation stops once it has begun.
  predicate Unhurt(o: Operation) {
    match o
    case Appending(_, _, fails) => fails.None? || fails.value.Nothing?
    case Deleting(_, _, rewrite) => rewrite.Completed? || rewrite.Untouched?
    case Purging(_, rewrite) => rewrite.Completed? || rewrite.Untouched?
    case Reloading => true
  }

  // Whatever is done to a sound store, as long as no write stops half way: it stays sound, and no
  // reading or reloading of its file ever fails.
  method Operate(store: JsonlAuditStore, operations: seq<Operation>) returns (intact: bool)
    requires store.Valid() && forall i | 0 <= i < |operations| :: Unhurt(operations[i])
    modifies store
    ensures store.Valid() && intact
  {
    intact := true;
    for i := 0 to |operations|
      invariant store.Valid() && intact
    {
      match operations[i] {
        case Appending(event, now, fails) =>
          var r := store.Append(event, now, fails);
        case Deleting(tenant, execution, rewrite) =>
          var r := store.DeleteExecution(tenant, execution, rewrite);
          intact := intact && !r.Unreadable? && !r.Unverified?;
        case Purging(at, rewrite) =>
          var r := store.PurgeExpired(at, rewrite);
          intact := intact && !r.Unreadable? && !r.Unverified?;
        case Reloading =>
          var ok := store.LoadAndVerify();
          intact := intact && ok;
      }
    }
  }

  // ---------- recorders ----------

  class AuditRecorder {
    const key: Key
    const retentionDays: nat
    var sequence: nat
    var previous: Option<Content>

    constructor (key: Key, retentionDays: nat)
      requires retentionDays > 0
      ensures this.key == key && this.retentionDays == retentionDays && sequence == 0 && previous == None
    {
      this.key, this.retentionDays, sequence, previous := key, retentionDays, 0, None;
    }

    // The recorder stands where the store's chain for its execution ends.
    predicate InStep(tails: Tails)
      reads this
    {
      previous == TailAt(tails, key) && sequence == match previous case None => 0 case Some(c) => c.sequence
    }

    // A discontinuity is reported exactly when recorder and store are out of step. A failure of the file
    // system moves neither; the same event can be tried again as long as nothing of its line was
    // written, and otherwise the store is sound no more.
    method Emit(store: JsonlAuditStore, kind: string, payload: string, now: int, fails: Option<Reached>) returns (r: AppendResult)
      requires retentionDays > 0
      modifies this, store
      ensures r == if !old(InStep(store.tails)) then Discontinuous else if fails.Some? then StorageFailed else Appended
      ensures r == Appended ==> InStep(store.tails) && sequence == old(sequence) + 1
      ensures r != Appended ==> store.tails == old(store.tails) && sequence == old(sequence) && previous == old(previous)
      ensures store.Valid() <==> old(store.Valid()) && (r == StorageFailed ==> fails == Some(Nothing))
      ensures forall other | other != key :: TailAt(store.tails, other) == old(TailAt(store.tails, other))
    {
      var content := Content(key, sequence + 1, kind, payload, retentionDays, previous);
      var event := AuditEvent(content, content);
      r := store.Append(event, now, fails);
      if r == Appended {
        sequence := sequence + 1;
        previous := Some(event.digest);
      }
    }
  }

  datatype Emission = Emission(recorder: nat, kind: string, payload: string, now: int, fails: Option<Reached>)

  predicate Begun(e: Emission) {
    e.fails.Some? && !e.fails.value.Nothing?
  }

  // Any interleaving of recorders of different executions, with any appends failing: the store
  // never reports a discontinuity and every recorder stays in step with it; and the store is sound
  // afterwards exactly when no append failed after beginning its line.
  method EmitAll(store: JsonlAuditStore, recorders: seq<AuditRecorder>, emissions: seq<Emission>) returns (results: seq<AppendResult>)
    requires store.Valid()
    requires forall i | 0 <= i < |recorders| :: recorders[i].retentionDays > 0 && recorders[i].InStep(store.tails)
    requires forall i, j | 0 <= i < j < |recorders| :: recorders[i] != recorders[j] && recorders[i].key != recorders[j].key
    requires forall k | 0 <= k < |emissions| :: emissions[k].recorder < |recorders|
    modifies store, recorders
    ensures |results| == |emissions|
    ensures forall k | 0 <= k < |emissions| :: results[k] == if emissions[k].fails.None? then Appended else StorageFailed
    ensures forall i | 0 <= i < |recorders| :: recorders[i].InStep(store.tails)
    ensures store.Valid() <==> forall k | 0 <= k < |emissions| :: !Begun(emissions[k])
  {
    results := [];
    for k := 0 to |emissions|
      invariant |results| == k
      invariant forall j | 0 <= j < k :: results[j] == if emissions[j].fails.None? then Appended else StorageFailed
      invariant forall i | 0 <= i < |recorders| :: recorders[i].InStep(store.tails)
      invariant store.Valid() <==> forall j | 0 <= j < k :: !Begun(emissions[j])
    {
      var e := emissions[k];
      var recorder := recorders[e.recorder];
      ghost var before := store.tails;
      var r := recorder.Emit(store, e.kind, e.payload, e.now, e.fails);
      assert recorder.InStep(store.tails);
      forall i | 0 <= i < |recorders| && i != e.recorder ensures recorders[i].InStep(store.tails) {
        assert recorders[i].key != recorder.key && recorders[i] != recorder;
        assert TailAt(store.tails, recorders[i].key) == TailAt(before, recorders[i].key);
      }
      results := results + [r];
    }
  }
}
