/**
 * Model of the document operations of src/workspace/mod.rs over an abstract store: a map
 * from path to content. Every operation takes the store and the backend's `Faults` and returns
 * the new store beside its result; the database behind it is not part of the model.
 */
module Workspace {
  import opened Wrappers
  import opened Paths

  type Store = map<Path, string>

  datatype WorkspaceError = DocumentNotFound(path: Path) | StorageFailed(path: Path)

  /** Which backend calls fail, per path: `get_document_by_path`, `get_or_create_document_by_path`,
      `update_document`, and the re-indexing after an update. */
  datatype Faults = Faults(readFails: set<Path>, createFails: set<Path>, updateFails: set<Path>, indexFails: set<Path>)

  const NO_FAULTS: Faults := Faults({}, {}, {}, {})

  /** No backend call on `p` fails. */
  predicate Healthy(faults: Faults, p: Path) {
    p !in faults.readFails && p !in faults.createFails && p !in faults.updateFails && p !in faults.indexFails
  }

  /** The new store and the result of an operation. */
  datatype Step<T> = Step(docs: Store, result: Result<T, WorkspaceError>)

  /** `after` differs from `before` at most at `p`, and nothing is deleted. */
  ghost predicate OnlyTouches(before: Store, after: Store, p: Path) {
    && before.Keys <= after.Keys <= before.Keys + {p}
    && forall q :: q in before && q != p ==> after[q] == before[q]
  }

  // ---------------------------------------------------------------------------
  // The backend calls

  function GetDocument(docs: Store, faults: Faults, p: Path): Result<string, WorkspaceError> {
    if p in faults.readFails then Err(StorageFailed(p))
    else if p in docs then Ok(docs[p])
    else Err(DocumentNotFound(p))
  }

  /** What fetching the document at `p`, creating it empty when missing, may leave: an error
      and no change when creation fails, otherwise the stored content; an existing document
      is left as it is. */
  ghost predicate FetchedOrCreated(docs: Store, faults: Faults, p: Path, r: Step<string>) {
    && (p in faults.createFails ==> r.docs == docs && r.result == Err(StorageFailed(p)))
    && (p !in faults.createFails ==> r.result.Ok? && p in r.docs && r.result.value == r.docs[p])
    && (p in docs ==> r.docs == docs)
    && (p !in docs && r.result.Ok? ==> r.docs == docs[p := ""])
  }

  /** The document at `p`, created empty when missing. */
  function GetOrCreate(docs: Store, faults: Faults, p: Path): Step<string> {
    if p in faults.createFails then Step(docs, Err(StorageFailed(p)))
    else if p in docs then Step(docs, Ok(docs[p]))
    else Step(docs[p := ""], Ok(""))
  }

  function UpdateDocument(docs: Store, faults: Faults, p: Path, content: string): Step<()> {
    if p in faults.updateFails then Step(docs, Err(StorageFailed(p)))
    else Step(docs[p := content], Ok(()))
  }

  function Reindex(faults: Faults, p: Path): Result<(), WorkspaceError> {
    if p in faults.indexFails then Err(StorageFailed(p)) else Ok(())
  }

  // ---------------------------------------------------------------------------
  // File operations

  /** `read`: the document at the normalized path. */
  function Read(docs: Store, faults: Faults, path: Path): (r: Result<string, WorkspaceError>)
    ensures Normalized(path) !in faults.readFails ==>
              && (r.Ok? <==> Normalized(path) in docs)
              && (r.Ok? ==> r.value == docs[Normalized(path)])
              && (r.Err? ==> r.error == DocumentNotFound(Normalized(path)))
    ensures Normalized(path) in faults.readFails ==> r.Err? && !r.error.DocumentNotFound?
  {
    GetDocument(docs, faults, Normalized(path))
  }

  /** `exists`: true when found, false when not found, and any other error passed on. */
  function Exists(docs: Store, faults: Faults, path: Path): (r: Result<bool, WorkspaceError>)
    ensures r == Ok(true) <==> Read(docs, faults, path).Ok?
    ensures r == Ok(false) <==> Read(docs, faults, path).Err? && Read(docs, faults, path).error.DocumentNotFound?
    ensures r.Err? ==> r == Err(Read(docs, faults, path).error)
  {
    match Read(docs, faults, path)
    case Ok(_) => Ok(true)
    case Err(DocumentNotFound(p)) => Ok(false)
    case Err(e) => Err(e)
  }

  /** What `write` does once it has the normalized path: create the document if needed,
      then replace its content. */
  function WriteAt(docs: Store, faults: Faults, p: Path, content: string): (r: Step<string>)
    ensures OnlyTouches(docs, r.docs, p)
    ensures r.result.Ok? ==> r.docs == docs[p := content] && r.result.value == content
    ensures Healthy(faults, p) ==> r.result.Ok?
  {
    var created := GetOrCreate(docs, faults, p);
    match created.result
    case Err(e) => Step(created.docs, Err(e))
    case Ok(_) =>
      var updated := UpdateDocument(created.docs, faults, p, content);
      match updated.result
      case Err(e) => Step(updated.docs, Err(e))
      case Ok(_) =>
        match Reindex(faults, p)
        case Err(e) => Step(updated.docs, Err(e))
        case Ok(_) => Step(updated.docs, Ok(content))
  }

  /** `write`: at the normalized path. */
  function Write(docs: Store, faults: Faults, path: Path, content: string): (r: Step<string>)
    ensures OnlyTouches(docs, r.docs, Normalized(path))
    ensures r.result.Ok? ==> r.result.value == content && r.docs == docs[Normalized(path) := content]
    ensures Healthy(faults, Normalized(path)) ==> r.result.Ok?
    ensures r.result.Ok? && Normalized(path) !in faults.readFails ==> Read(r.docs, faults, path) == Ok(content)
  {
    WriteAt(docs, faults, Normalized(path), content)
  }

  /** The content after appending `entry` to `existing`: just `entry` when there is nothing
      yet, otherwise the old content, the separator and the entry. */
  function Joined(existing: string, entry: string, sep: string): (r: string)
    ensures existing == "" ==> r == entry
    ensures existing != "" ==>
              && |r| == |existing| + |sep| + |entry|
              && r[..|existing|] == existing
              && r[|existing|..|existing| + |sep|] == sep
              && r[|existing| + |sep|..] == entry
  {
    if existing == "" then entry else existing + sep + entry
  }

  /** What `append` and `append_memory` share once they have their path: fetch or create the
      document and store the joined content. */
  function AppendAt(docs: Store, faults: Faults, p: Path, entry: string, sep: string): (r: Step<()>)
    ensures OnlyTouches(docs, r.docs, p)
    ensures r.result.Ok? ==> r.docs == docs[p := Joined(if p in docs then docs[p] else "", entry, sep)]
    ensures Healthy(faults, p) ==> r.result.Ok?
  {
    var doc := GetOrCreate(docs, faults, p);
    match doc.result
    case Err(e) => Step(doc.docs, Err(e))
    case Ok(existing) =>
      var updated := UpdateDocument(doc.docs, faults, p, Joined(existing, entry, sep));
      match updated.result
      case Err(e) => Step(updated.docs, Err(e))
      case Ok(_) => Step(updated.docs, Reindex(faults, p))
  }

  /** `append`: joined with a single newline, at the normalized path. */
  function Append(docs: Store, faults: Faults, path: Path, content: string): (r: Step<()>)
    ensures var p := Normalized(path);
            && OnlyTouches(docs, r.docs, p)
            && (r.result.Ok? ==> r.docs == docs[p := Joined(if p in docs then docs[p] else "", content, "\n")])
            && (Healthy(faults, p) ==> r.result.Ok?)
  {
    AppendAt(docs, faults, Normalized(path), content, "\n")
  }

  /** `memory`: MEMORY.md, created if missing. */
  function MemoryDocument(docs: Store, faults: Faults): (r: Step<string>)
    ensures FetchedOrCreated(docs, faults, MEMORY, r)
  {
    GetOrCreate(docs, faults, MEMORY)
  }

  /** `append_memory`: joined with a blank line, at MEMORY.md as `memory` finds it. */
  function AppendMemory(docs: Store, faults: Faults, entry: string): (r: Step<()>)
    ensures OnlyTouches(docs, r.docs, MEMORY)
    ensures r.result.Ok? ==> r.docs == docs[MEMORY := Joined(if MEMORY in docs then docs[MEMORY] else "", entry, "\n\n")]
    ensures Healthy(faults, MEMORY) ==> r.result.Ok?
  {
    AppendAt(docs, faults, MEMORY, entry, "\n\n")
  }

  /** A calendar date in the `%Y-%m-%d` form the daily logs are named by. */
  type Date = string

  function DailyLogPath(date: Date): Path {
    "daily/" + date + ".md"
  }

  /** `daily_log`: the log of that date, created if missing. */
  function DailyLog(docs: Store, faults: Faults, date: Date): (r: Step<string>)
    ensures FetchedOrCreated(docs, faults, DailyLogPath(date), r)
  {
    GetOrCreate(docs, faults, DailyLogPath(date))
  }

  /** `append_daily_log`: the entry, prefixed with the `%H:%M:%S` time in brackets, appended
      to the log of the given date. */
  function AppendDailyLog(docs: Store, faults: Faults, today: Date, time: string, entry: string): (r: Step<()>)
    ensures var p := Normalized(DailyLogPath(today));
            && OnlyTouches(docs, r.docs, p)
            && (r.result.Ok? ==>
                  r.docs == docs[p := Joined(if p in docs then docs[p] else "", "[" + time + "] " + entry, "\n")])
            && (Healthy(faults, p) ==> r.result.Ok?)
  {
    Append(docs, faults, DailyLogPath(today), "[" + time + "] " + entry)
  }

  // ---------------------------------------------------------------------------
  // Joining sections

  /** `[String]::join`. */
  function JoinWith(parts: seq<string>, sep: string): (r: string)
    decreases |parts|
    ensures parts == [] ==> r == ""
    ensures parts != [] ==> |parts[0]| <= |r| && r[..|parts[0]|] == parts[0]
  {
    if |parts| == 0 then ""
    else if |parts| == 1 then parts[0]
    else JoinWith(parts[..|parts| - 1], sep) + sep + parts[|parts| - 1]
  }

  /** With non-empty parts, the join is empty exactly when there are no parts. */
  lemma JoinEmptyIff(parts: seq<string>, sep: string)
    requires forall k :: 0 <= k < |parts| ==> parts[k] != ""
    ensures JoinWith(parts, sep) == "" <==> parts == []
  {
    if |parts| >= 2 {
      assert |JoinWith(parts, sep)| >= |parts[|parts| - 1]|;
    }
  }

  /** Joining one more non-empty entry extends the join of the earlier ones. */
  lemma {:induction false} JoinedExtendsJoin(parts: seq<string>, entry: string, sep: string)
    requires forall k :: 0 <= k < |parts| ==> parts[k] != ""
    ensures Joined(JoinWith(parts, sep), entry, sep) == JoinWith(parts + [entry], sep)
  {
    JoinEmptyIff(parts, sep);
    assert (parts + [entry])[..|parts|] == parts;
  }

  /** A join of `a` then `b` starts with the first of `a` and ends with the last of `b`. */
  lemma JoinEnds(a: seq<string>, b: seq<string>, sep: string)
    ensures var r := JoinWith(a + b, sep);
            && (a != [] ==> |a[0]| <= |r| && r[..|a[0]|] == a[0])
            && (b != [] ==> |b[|b| - 1]| <= |r| && r[|r| - |b[|b| - 1]|..] == b[|b| - 1])
  {
    var parts := a + b;
    if a != [] {
      assert parts[0] == a[0];
    }
    if b != [] {
      assert parts[|parts| - 1] == b[|b| - 1];
      if |parts| > 1 {
        assert JoinWith(parts, sep) == JoinWith(parts[..|parts| - 1], sep) + sep + parts[|parts| - 1];
      }
    }
  }

  /** Where the `k`-th part starts in the join: after every earlier part and its separator. */
  function JoinOffset(parts: seq<string>, sep: string, k: nat): nat
    requires k <= |parts|
  {
    if k == 0 then 0 else JoinOffset(parts, sep, k - 1) + |parts[k - 1]| + |sep|
  }

  /** The offsets of the first `n` parts depend on those parts only. */
  lemma {:induction false} JoinOffsetPrefix(parts: seq<string>, sep: string, n: nat, k: nat)
    requires k <= n <= |parts|
    ensures JoinOffset(parts[..n], sep, k) == JoinOffset(parts, sep, k)
  {
    if k > 0 {
      JoinOffsetPrefix(parts, sep, n, k - 1);
      assert parts[..n][k - 1] == parts[k - 1];
    }
  }

  /** A join ends right after its last part. */
  lemma {:induction false} JoinLength(parts: seq<string>, sep: string)
    requires parts != []
    decreases |parts|
    ensures |JoinWith(parts, sep)| == JoinOffset(parts, sep, |parts| - 1) + |parts[|parts| - 1]|
  {
    if |parts| > 1 {
      var n := |parts| - 1;
      JoinLength(parts[..n], sep);
      JoinOffsetPrefix(parts, sep, n, n - 1);
      assert parts[..n][n - 1] == parts[n - 1];
    }
  }

  /** `text` holds `piece` starting at offset `at`. */
  predicate HoldsAt(text: string, piece: string, at: nat) {
    at + |piece| <= |text| && text[at..at + |piece|] == piece
  }

  /** The `k`-th part of a join sits at its offset. */
  lemma {:induction false} JoinPart(parts: seq<string>, sep: string, k: nat)
    requires k < |parts|
    decreases |parts|
    ensures HoldsAt(JoinWith(parts, sep), parts[k], JoinOffset(parts, sep, k))
  {
    if |parts| > 1 {
      var n := |parts| - 1;
      var r := JoinWith(parts, sep);
      var ri := JoinWith(parts[..n], sep);
      assert r == ri + sep + parts[n];
      JoinOffsetPrefix(parts, sep, n, k);
      if k == n {
        JoinLength(parts[..n], sep);
        JoinOffsetPrefix(parts, sep, n, n - 1);
        assert parts[..n][n - 1] == parts[n - 1];
        assert JoinOffset(parts, sep, n) == |ri| + |sep|;
        assert r[|ri| + |sep|..] == parts[n];
      } else {
        JoinPart(parts[..n], sep, k);
        assert parts[..n][k] == parts[k];
        var a := JoinOffset(parts, sep, k);
        assert r[a..a + |parts[k]|] == ri[a..a + |parts[k]|];
      }
    }
  }

  /** Two pieces held one after the other hold their concatenation. */
  lemma HoldsAtConcat(text: string, x: string, y: string, at: nat)
    requires HoldsAt(text, x, at) && HoldsAt(text, y, at + |x|)
    ensures HoldsAt(text, x + y, at)
  {
    assert text[at..at + |x| + |y|] == text[at..at + |x|] + text[at + |x|..at + |x| + |y|];
  }

  /** The separator comes right after the `k`-th part of a join, when another part follows. */
  lemma {:induction false} JoinSeparatorAt(parts: seq<string>, sep: string, k: nat)
    requires k + 1 < |parts|
    ensures HoldsAt(JoinWith(parts, sep), sep, JoinOffset(parts, sep, k) + |parts[k]|)
  {
    var r := JoinWith(parts, sep);
    var ri := JoinWith(parts[..k + 1], sep);
    var rj := JoinWith(parts[..k + 2], sep);
    var a := JoinOffset(parts, sep, k) + |parts[k]|;
    JoinPart(parts, sep, k + 1);
    JoinPart(parts[..k + 2], sep, k + 1);
    JoinOffsetPrefix(parts, sep, k + 2, k + 1);
    JoinLength(parts[..k + 1], sep);
    JoinOffsetPrefix(parts, sep, k + 1, k);
    assert parts[..k + 1][k] == parts[k];
    assert parts[..k + 2][..k + 1] == parts[..k + 1];
    assert parts[..k + 2][k + 1] == parts[k + 1];
    assert rj == ri + sep + parts[k + 1];
    assert |ri| == a;
    JoinPrefix(parts, sep, k + 2);
    assert r[a..a + |sep|] == rj[a..a + |sep|];
  }

  /** Every part of a join but the last is followed by the separator. */
  lemma {:induction false} JoinSeparator(parts: seq<string>, sep: string, k: nat)
    requires k + 1 < |parts|
    ensures HoldsAt(JoinWith(parts, sep), parts[k] + sep, JoinOffset(parts, sep, k))
  {
    JoinPart(parts, sep, k);
    JoinSeparatorAt(parts, sep, k);
    HoldsAtConcat(JoinWith(parts, sep), parts[k], sep, JoinOffset(parts, sep, k));
  }

  /** The join of the first `m` parts begins the join of all of them. */
  lemma {:induction false} JoinPrefix(parts: seq<string>, sep: string, m: nat)
    requires 0 < m <= |parts|
    decreases |parts|
    ensures |JoinWith(parts[..m], sep)| <= |JoinWith(parts, sep)|
    ensures JoinWith(parts, sep)[..|JoinWith(parts[..m], sep)|] == JoinWith(parts[..m], sep)
  {
    if m < |parts| {
      var n := |parts| - 1;
      JoinPrefix(parts[..n], sep, m);
      assert parts[..n][..m] == parts[..m];
      assert JoinWith(parts, sep) == JoinWith(parts[..n], sep) + sep + parts[n];
    } else {
      assert parts[..m] == parts;
    }
  }

  /** The layout of a join: each part at its offset, every part but the last followed by the
      separator, and nothing after the last part. */
  lemma {:induction false} JoinLayout(parts: seq<string>, sep: string)
    requires parts != []
    ensures |JoinWith(parts, sep)| == JoinOffset(parts, sep, |parts| - 1) + |parts[|parts| - 1]|
    ensures forall k :: 0 <= k < |parts| ==> HoldsAt(JoinWith(parts, sep), parts[k], JoinOffset(parts, sep, k))
    ensures forall k :: 0 <= k < |parts| - 1 ==> HoldsAt(JoinWith(parts, sep), parts[k] + sep, JoinOffset(parts, sep, k))
  {
    JoinLength(parts, sep);
    forall k | 0 <= k < |parts|
      ensures HoldsAt(JoinWith(parts, sep), parts[k], JoinOffset(parts, sep, k))
    {
      JoinPart(parts, sep, k);
    }
    forall k | 0 <= k < |parts| - 1
      ensures HoldsAt(JoinWith(parts, sep), parts[k] + sep, JoinOffset(parts, sep, k))
    {
      JoinSeparator(parts, sep, k);
    }
  }

  /** Appending the entries one after another, stopping at the first failure. */
  function AppendEach(docs: Store, faults: Faults, p: Path, entries: seq<string>, sep: string): Step<()>
    decreases |entries|
  {
    if entries == [] then Step(docs, Ok(()))
    else
      var before := AppendEach(docs, faults, p, entries[..|entries| - 1], sep);
      if before.result.Err? then before
      else AppendAt(before.docs, faults, p, entries[|entries| - 1], sep)
  }

  /** With a healthy backend, appending always succeeds. */
  lemma AppendAtHealthy(docs: Store, faults: Faults, p: Path, entry: string, sep: string)
    requires Healthy(faults, p)
    ensures AppendAt(docs, faults, p, entry, sep) == Step(docs[p := Joined(if p in docs then docs[p] else "", entry, sep)], Ok(()))
  {
  }

  /** One more entry appends it to what the earlier entries left. */
  lemma AppendEachStep(docs: Store, faults: Faults, p: Path, entries: seq<string>, sep: string)
    requires entries != [] && AppendEach(docs, faults, p, entries[..|entries| - 1], sep).result.Ok?
    ensures AppendEach(docs, faults, p, entries, sep)
         == AppendAt(AppendEach(docs, faults, p, entries[..|entries| - 1], sep).docs, faults, p, entries[|entries| - 1], sep)
  {
  }

  /** Appending non-empty entries to a missing or empty document leaves exactly the entries
      joined by the separator. */
  lemma {:induction false} AppendsFormJoin(docs: Store, faults: Faults, p: Path, entries: seq<string>, sep: string)
    requires Healthy(faults, p) && (p !in docs || docs[p] == "")
    requires entries != [] && forall k :: 0 <= k < |entries| ==> entries[k] != ""
    decreases |entries|
    ensures AppendEach(docs, faults, p, entries, sep) == Step(docs[p := JoinWith(entries, sep)], Ok(()))
  {
    var init := entries[..|entries| - 1];
    var last := entries[|entries| - 1];
    if init == [] {
      assert AppendEach(docs, faults, p, init, sep) == Step(docs, Ok(()));
      assert entries == [last];
      AppendEachStep(docs, faults, p, entries, sep);
      AppendAtHealthy(docs, faults, p, last, sep);
    } else {
      AppendsFormJoin(docs, faults, p, init, sep);
      AppendEachStep(docs, faults, p, entries, sep);
      AppendAfterJoin(docs, faults, p, init, last, sep);
      assert init + [last] == entries;
    }
  }

  /** The step of `AppendsFormJoin`: one more entry after the joined earlier ones. */
  lemma AppendAfterJoin(docs: Store, faults: Faults, p: Path, init: seq<string>, last: string, sep: string)
    requires Healthy(faults, p) && forall k :: 0 <= k < |init| ==> init[k] != ""
    ensures AppendAt(docs[p := JoinWith(init, sep)], faults, p, last, sep) == Step(docs[p := JoinWith(init + [last], sep)], Ok(()))
  {
    var joined := docs[p := JoinWith(init, sep)];
    AppendAtHealthy(joined, faults, p, last, sep);
    JoinedExtendsJoin(init, last, sep);
    assert joined[p := JoinWith(init + [last], sep)] == docs[p := JoinWith(init + [last], sep)];
  }

  /** What `read` gives after a successful `append`: the joined content. */
  lemma AppendThenRead(docs: Store, faults: Faults, path: Path, content: string)
    requires Append(docs, faults, path, content).result.Ok?
    requires Normalized(path) !in faults.readFails
    ensures var before := if Normalized(path) in docs then docs[Normalized(path)] else "";
            Read(Append(docs, faults, path, content).docs, faults, path) == Ok(Joined(before, content, "\n"))
  {
  }

  /** What `memory` gives after a successful `append_memory`: the joined content. */
  lemma AppendMemoryThenRead(docs: Store, faults: Faults, entry: string)
    requires AppendMemory(docs, faults, entry).result.Ok?
    ensures var before := if MEMORY in docs then docs[MEMORY] else "";
            MemoryDocument(AppendMemory(docs, faults, entry).docs, faults).result == Ok(Joined(before, entry, "\n\n"))
  {
  }

  // ---------------------------------------------------------------------------
  // heartbeat_checklist

  /** The built-in HEARTBEAT.md template (its text is not modelled). */
  const HEARTBEAT_SEED: string

  /** `heartbeat_checklist`: the stored checklist, or the built-in template when there is
      none; it reads only, and it never answers `None`. */
  function HeartbeatChecklist(docs: Store, faults: Faults): (r: Result<Option<string>, WorkspaceError>)
    ensures r.Ok? ==> r.value.Some?
    ensures Normalized(HEARTBEAT) !in faults.readFails ==>
              r == Ok(Some(if Normalized(HEARTBEAT) in docs then docs[Normalized(HEARTBEAT)] else HEARTBEAT_SEED))
    ensures Normalized(HEARTBEAT) in faults.readFails ==> r.Err?
  {
    match Read(docs, faults, HEARTBEAT)
    case Ok(content) => Ok(Some(content))
    case Err(DocumentNotFound(_)) => Ok(Some(HEARTBEAT_SEED))
    case Err(e) => Err(e)
  }

  // ---------------------------------------------------------------------------
  // seed_if_empty

  // The seed templates; their texts are not modelled.
  const README_SEED: string
  const MEMORY_SEED: string
  const IDENTITY_SEED: string
  const SOUL_SEED: string
  const AGENTS_SEED: string
  const USER_SEED: string
  const TOOLS_SEED: string
  const BOOT_SEED: string
  const BOOTSTRAP_SEED: string

  /** The seed files, in the order they are tried. */
  const SEED_FILES: seq<(Path, string)> := [
    (README, README_SEED), (MEMORY, MEMORY_SEED), (IDENTITY, IDENTITY_SEED), (SOUL, SOUL_SEED),
    (AGENTS, AGENTS_SEED), (USER, USER_SEED), (TOOLS, TOOLS_SEED), (BOOT, BOOT_SEED),
    (BOOTSTRAP, BOOTSTRAP_SEED), (HEARTBEAT, HEARTBEAT_SEED)
  ]

  /** One round of the seeding loop: skip a path that can be read or whose read fails for
      another reason than not found; otherwise write the seed, counting it when the write succeeds. */
  function SeedOne(docs: Store, faults: Faults, seed: (Path, string)): (r: (Store, bool))
    ensures OnlyTouches(docs, r.0, Normalized(seed.0))
    ensures Normalized(seed.0) in docs ==> r == (docs, false)
    ensures r.1 ==> r.0 == docs[Normalized(seed.0) := seed.1]
  {
    match Read(docs, faults, seed.0)
    case Ok(_) => (docs, false)
    case Err(DocumentNotFound(_)) =>
      var written := Write(docs, faults, seed.0, seed.1);
      (written.docs, written.result.Ok?)
    case Err(_) => (docs, false)
  }

  /** The same round stated per backend call, on the normalized key `p`: nothing happens when
      the read fails or finds the document; a failing create leaves the store alone; a failing
      update leaves the freshly created document empty; a failing re-index keeps the new content
      but does not count it. */
  function SeedAt(docs: Store, faults: Faults, p: Path, content: string): (Store, bool) {
    if p in faults.readFails || p in docs || p in faults.createFails then (docs, false)
    else if p in faults.updateFails then (docs[p := ""], false)
    else (docs[p := content], p !in faults.indexFails)
  }

  /** `SeedOne` is `SeedAt` at the normalized path. */
  lemma SeedOneAt(docs: Store, faults: Faults, seed: (Path, string))
    ensures SeedOne(docs, faults, seed) == SeedAt(docs, faults, Normalized(seed.0), seed.1)
  {
    var p := Normalized(seed.0);
    if p !in faults.readFails && p !in docs {
      assert Read(docs, faults, seed.0) == Err(DocumentNotFound(p));
      var written := Write(docs, faults, seed.0, seed.1);
      if p in faults.createFails {
        assert written == Step(docs, Err(StorageFailed(p)));
      } else if p in faults.updateFails {
        assert written == Step(docs[p := ""], Err(StorageFailed(p)));
      } else {
        assert written.docs == docs[p := seed.1];
        assert written.result.Ok? <==> p !in faults.indexFails;
      }
    }
  }

  /** The seeds with their paths normalized, as `read` and `write` look them up. */
  function Keyed(seeds: seq<(Path, string)>): (r: seq<(Path, string)>)
    ensures |r| == |seeds|
    ensures forall k :: 0 <= k < |seeds| ==> r[k] == (Normalized(seeds[k].0), seeds[k].1)
  {
    seq(|seeds|, k requires 0 <= k < |seeds| => (Normalized(seeds[k].0), seeds[k].1))
  }

  /** The store and the count after the first `n` rounds of seeding with normalized seeds;
      at most one file is counted per round. */
  function Seeded(docs: Store, faults: Faults, keyed: seq<(Path, string)>, n: nat): (r: (Store, nat))
    requires n <= |keyed|
    decreases n
    ensures r.1 <= n
  {
    if n == 0 then (docs, 0)
    else
      var before := Seeded(docs, faults, keyed, n - 1);
      var step := SeedAt(before.0, faults, keyed[n - 1].0, keyed[n - 1].1);
      (step.0, before.1 + if step.1 then 1 else 0)
  }

  /** One more round of seeding applies `SeedAt` to the store so far. */
  lemma SeededStep(docs: Store, faults: Faults, keyed: seq<(Path, string)>, n: nat)
    requires n < |keyed|
    ensures var before := Seeded(docs, faults, keyed, n);
            var step := SeedAt(before.0, faults, keyed[n].0, keyed[n].1);
            Seeded(docs, faults, keyed, n + 1) == (step.0, before.1 + if step.1 then 1 else 0)
  {
  }

  /** A healthy round creates a missing document with its seed and counts it. */
  lemma SeedAtHealthy(docs: Store, faults: Faults, p: Path, content: string)
    requires Healthy(faults, p)
    ensures SeedAt(docs, faults, p, content) == if p in docs then (docs, false) else (docs[p := content], true)
  {
  }

  /** The keys of the first `n` seeds. */
  function SeedPaths(keyed: seq<(Path, string)>, n: nat): set<Path>
    requires n <= |keyed|
  {
    if n == 0 then {} else SeedPaths(keyed, n - 1) + {keyed[n - 1].0}
  }

  /** Seeding keeps every existing document as it was. */
  lemma {:induction false} SeededKeeps(docs: Store, faults: Faults, keyed: seq<(Path, string)>, n: nat)
    requires n <= |keyed|
    ensures forall q :: q in docs ==> q in Seeded(docs, faults, keyed, n).0 && Seeded(docs, faults, keyed, n).0[q] == docs[q]
  {
    if n > 0 {
      SeededKeeps(docs, faults, keyed, n - 1);
    }
  }

  /** Seeding adds only seed paths. */
  lemma {:induction false} SeededAddsSeeds(docs: Store, faults: Faults, keyed: seq<(Path, string)>, n: nat)
    requires n <= |keyed|
    ensures Seeded(docs, faults, keyed, n).0.Keys <= docs.Keys + SeedPaths(keyed, n)
  {
    if n > 0 {
      SeededAddsSeeds(docs, faults, keyed, n - 1);
    }
  }

  /** With a healthy backend every seed path ends up in the store. */
  lemma {:induction false} SeededHealthyCreatesAll(docs: Store, faults: Faults, keyed: seq<(Path, string)>, n: nat)
    requires n <= |keyed|
    requires forall k :: 0 <= k < n ==> Healthy(faults, keyed[k].0)
    ensures Seeded(docs, faults, keyed, n).0.Keys == docs.Keys + SeedPaths(keyed, n)
  {
    if n > 0 {
      SeededHealthyCreatesAll(docs, faults, keyed, n - 1);
    }
  }

  /** With a healthy backend the count is the number of documents seeding created (it
      deletes nothing, see `SeededKeeps`). */
  lemma {:induction false} SeededCountsCreated(docs: Store, faults: Faults, keyed: seq<(Path, string)>, n: nat)
    requires n <= |keyed|
    requires forall k :: 0 <= k < n ==> Healthy(faults, keyed[k].0)
    ensures |docs| + Seeded(docs, faults, keyed, n).1 == |Seeded(docs, faults, keyed, n).0|
  {
    if n > 0 {
      SeededCountsCreated(docs, faults, keyed, n - 1);
      assert Healthy(faults, keyed[n - 1].0);
    }
  }

  /** Seeding a store that already holds every seed path changes nothing and counts nothing,
      whatever the backend does. */
  lemma {:induction false} SeedingPresentIsNoop(docs: Store, faults: Faults, keyed: seq<(Path, string)>, n: nat)
    requires n <= |keyed|
    requires SeedPaths(keyed, n) <= docs.Keys
    ensures Seeded(docs, faults, keyed, n) == (docs, 0)
  {
    if n > 0 {
      SeedingPresentIsNoop(docs, faults, keyed, n - 1);
    }
  }

  /** Seeding twice with a healthy backend: the second pass creates nothing. */
  lemma SeedTwice(docs: Store, faults: Faults, keyed: seq<(Path, string)>)
    requires forall k :: 0 <= k < |keyed| ==> Healthy(faults, keyed[k].0)
    ensures var once := Seeded(docs, faults, keyed, |keyed|).0;
            Seeded(once, faults, keyed, |keyed|) == (once, 0)
  {
    SeededHealthyCreatesAll(docs, faults, keyed, |keyed|);
    SeedingPresentIsNoop(Seeded(docs, faults, keyed, |keyed|).0, faults, keyed, |keyed|);
  }

  /** A failing update after the document was created leaves it empty, and it is not counted. */
  lemma SeedUpdateFaultLeavesEmpty(docs: Store, faults: Faults, seed: (Path, string))
    requires Normalized(seed.0) !in docs
    requires Normalized(seed.0) !in faults.readFails && Normalized(seed.0) !in faults.createFails
    requires Normalized(seed.0) in faults.updateFails
    ensures SeedOne(docs, faults, seed) == (docs[Normalized(seed.0) := ""], false)
  {
  }

  /** Seeding does not change what `heartbeat_checklist` answers when every seed for the
      heartbeat path carries the built-in template (a failed update would leave it empty). */
  lemma {:induction false} SeedingKeepsHeartbeat(docs: Store, faults: Faults, keyed: seq<(Path, string)>, n: nat, h: Path)
    requires n <= |keyed|
    requires h !in faults.readFails && h !in faults.updateFails
    requires forall k :: 0 <= k < n && keyed[k].0 == h ==> keyed[k].1 == HEARTBEAT_SEED
    ensures var after := Seeded(docs, faults, keyed, n).0;
            (h in after ==> after[h] == if h in docs then docs[h] else HEARTBEAT_SEED)
  {
    if n > 0 {
      SeedingKeepsHeartbeat(docs, faults, keyed, n - 1, h);
      SeededKeeps(docs, faults, keyed, n - 1);
    }
  }

  /** So `heartbeat_checklist` answers the same after seeding. */
  lemma SeedingKeepsHeartbeatChecklist(docs: Store, faults: Faults, keyed: seq<(Path, string)>)
    requires Normalized(HEARTBEAT) !in faults.readFails && Normalized(HEARTBEAT) !in faults.updateFails
    requires forall k :: 0 <= k < |keyed| && keyed[k].0 == Normalized(HEARTBEAT) ==> keyed[k].1 == HEARTBEAT_SEED
    ensures HeartbeatChecklist(Seeded(docs, faults, keyed, |keyed|).0, faults) == HeartbeatChecklist(docs, faults)
  {
    SeedingKeepsHeartbeat(docs, faults, keyed, |keyed|, Normalized(HEARTBEAT));
    SeededKeeps(docs, faults, keyed, |keyed|);
  }

  /** The branches of `SeedOne` the loop below takes apart. */
  lemma SeedOneSkips(docs: Store, faults: Faults, seed: (Path, string))
    requires !(Read(docs, faults, seed.0).Err? && Read(docs, faults, seed.0).error.DocumentNotFound?)
    ensures SeedOne(docs, faults, seed) == (docs, false)
  {
  }

  lemma SeedOneWrites(docs: Store, faults: Faults, seed: (Path, string))
    requires Read(docs, faults, seed.0).Err? && Read(docs, faults, seed.0).error.DocumentNotFound?
    ensures var written := Write(docs, faults, seed.0, seed.1);
            SeedOne(docs, faults, seed) == (written.docs, written.result.Ok?)
  {
  }

  /** The loop below keeps its invariant: the store and count after `i` seeds, then one more
      round, are those after `i + 1` seeds. */
  lemma SeedEachStep(docs: Store, faults: Faults, seeds: seq<(Path, string)>, i: nat, before: (Store, nat), step: (Store, bool))
    requires i < |seeds|
    requires before == Seeded(docs, faults, Keyed(seeds), i)
    requires step == SeedAt(before.0, faults, Normalized(seeds[i].0), seeds[i].1)
    ensures (step.0, before.1 + if step.1 then 1 else 0) == Seeded(docs, faults, Keyed(seeds), i + 1)
  {
    SeededStep(docs, faults, Keyed(seeds), i);
  }

  /** The body of the loop of `seed_if_empty`: check, then write, the one seed file. */
  method SeedRound(docs: Store, faults: Faults, seed: (Path, string)) returns (seeded: Store, created: bool)
    ensures (seeded, created) == SeedAt(docs, faults, Normalized(seed.0), seed.1)
  {
    SeedOneAt(docs, faults, seed);
    var (path, content) := seed;
    seeded, created := docs, false;
    match Read(docs, faults, path) {
      case Ok(_) =>
        SeedOneSkips(docs, faults, seed);
      case Err(DocumentNotFound(_)) =>
        SeedOneWrites(docs, faults, seed);
        var written := Write(docs, faults, path, content);
        seeded := written.docs;
        created := written.result.Ok?;
      case Err(_) =>
        SeedOneSkips(docs, faults, seed);
    }
  }

  /** One pass of the loop of `seed_if_empty`: seed the `i`-th file and count it if created. */
  method SeedNext(docs: Store, faults: Faults, seeds: seq<(Path, string)>, i: nat, seeded: Store, count: nat)
    returns (seeded': Store, count': nat)
    requires i < |seeds| && (seeded, count) == Seeded(docs, faults, Keyed(seeds), i)
    ensures (seeded', count') == Seeded(docs, faults, Keyed(seeds), i + 1)
  {
    var created;
    seeded', created := SeedRound(seeded, faults, seeds[i]);
    SeedEachStep(docs, faults, seeds, i, (seeded, count), (seeded', created));
    count' := if created then count + 1 else count;
  }

  /** The loop of `seed_if_empty` over a list of seed files, counting those created. */
  method SeedEach(docs: Store, faults: Faults, seeds: seq<(Path, string)>) returns (count: nat, seeded: Store)
    ensures (seeded, count) == Seeded(docs, faults, Keyed(seeds), |seeds|)
  {
    count := 0;
    seeded := docs;
    for i := 0 to |seeds|
      invariant (seeded, count) == Seeded(docs, faults, Keyed(seeds), i)
    {
      seeded, count := SeedNext(docs, faults, seeds, i, seeded, count);
    }
  }

  /** `seed_if_empty`: try every seed file of `SEED_FILES` in turn. */
  method SeedIfEmpty(docs: Store, faults: Faults) returns (count: nat, seeded: Store)
    ensures (seeded, count) == Seeded(docs, faults, Keyed(SEED_FILES), |SEED_FILES|)
  {
    count, seeded := SeedEach(docs, faults, SEED_FILES);
  }

  // ---------------------------------------------------------------------------
  // system_prompt

  /** The identity files and their section headers, in the order they are loaded. */
  const IDENTITY_FILES: seq<(Path, string)> := [
    (AGENTS, "## Agent Instructions"), (SOUL, "## Core Values"), (USER, "## User Context"), (IDENTITY, "## Identity")
  ]

  const TODAY_HEADER: string := "## Today's Notes"
  const YESTERDAY_HEADER: string := "## Yesterday's Notes"
  const SECTION_SEPARATOR: string := "\n\n---\n\n"

  /** A section of the prompt: the header, a blank line, the content. */
  function Section(header: string, content: string): (r: string)
    ensures |r| == |header| + 2 + |content|
    ensures r[..|header|] == header && r[|header| + 2..] == content
  {
    header + "\n\n" + content
  }

  /** The file at `p` can be read and is not empty. */
  predicate HasContent(docs: Store, faults: Faults, p: Path) {
    p in docs && p !in faults.readFails && docs[p] != ""
  }

  /** The sections of the first `n` identity files, their paths normalized: one for each
      file that can be read and is not empty; a file that cannot be read is skipped. */
  function IdentitySections(docs: Store, faults: Faults, keyed: seq<(Path, string)>, n: nat): (r: seq<string>)
    requires n <= |keyed|
    decreases n
    ensures |r| <= n
  {
    if n == 0 then []
    else
      IdentitySections(docs, faults, keyed, n - 1) + IdentitySection(docs, faults, keyed[n - 1].0, keyed[n - 1].1)
  }

  /** The section of one identity file at normalized path `p`: none when it cannot be read
      or is empty. */
  function IdentitySection(docs: Store, faults: Faults, p: Path, header: string): (r: seq<string>)
    ensures r == if HasContent(docs, faults, p) then [Section(header, docs[p])] else []
  {
    var read := GetDocument(docs, faults, p);
    if read.Ok? && read.value != "" then [Section(header, read.value)] else []
  }

  /** The header of a daily log's section. */
  function DailyHeader(today: Date, date: Date): string {
    if date == today then TODAY_HEADER else YESTERDAY_HEADER
  }

  /** The store and the sections after the first `n` daily logs: each log is fetched, and
      created empty when missing; a non-empty one gives a section, one that cannot be fetched
      is skipped. */
  function DailySections(docs: Store, faults: Faults, today: Date, dates: seq<Date>, n: nat): (r: (Store, seq<string>))
    requires n <= |dates|
    decreases n
    ensures |r.1| <= n
  {
    if n == 0 then (docs, [])
    else
      var before := DailySections(docs, faults, today, dates, n - 1);
      var log := DailyLog(before.0, faults, dates[n - 1]);
      if log.result.Ok? && log.result.value != "" then
        (log.docs, before.1 + [Section(DailyHeader(today, dates[n - 1]), log.result.value)])
      else (log.docs, before.1)
  }

  /** The log of `date` exists, can be fetched and is not empty. */
  predicate LogHasContent(docs: Store, faults: Faults, date: Date) {
    var p := DailyLogPath(date);
    p in docs && p !in faults.createFails && docs[p] != ""
  }

  /** The section the log of `date` gives, read off the store before any log was created. */
  function DailySection(docs: Store, faults: Faults, today: Date, date: Date): (r: seq<string>)
    ensures |r| <= 1
    ensures r != [] <==> LogHasContent(docs, faults, date)
  {
    if LogHasContent(docs, faults, date) then [Section(DailyHeader(today, date), docs[DailyLogPath(date)])] else []
  }

  /** One more daily log adds the section it gives in the original store: the logs created
      empty by earlier rounds give none. */
  lemma DailySectionsStep(docs: Store, faults: Faults, today: Date, dates: seq<Date>, n: nat)
    requires 0 < n <= |dates|
    ensures DailySections(docs, faults, today, dates, n).1
         == DailySections(docs, faults, today, dates, n - 1).1 + DailySection(docs, faults, today, dates[n - 1])
  {
    DailySectionsKeep(docs, faults, today, dates, n - 1);
    DailySectionsCreateLogs(docs, faults, today, dates, n - 1);
  }

  /** The indices below `n` whose flag is set, in increasing order. */
  ghost function Selected(keep: seq<bool>, n: nat): seq<nat>
    requires n <= |keep|
  {
    if n == 0 then [] else Selected(keep, n - 1) + if keep[n - 1] then [n - 1] else []
  }

  /** The selected indices are below `n`, flagged, and increasing. */
  lemma {:induction false} SelectedInOrder(keep: seq<bool>, n: nat)
    requires n <= |keep|
    ensures forall j :: 0 <= j < |Selected(keep, n)| ==> Selected(keep, n)[j] < n && keep[Selected(keep, n)[j]]
    ensures forall i, j :: 0 <= i < j < |Selected(keep, n)| ==> Selected(keep, n)[i] < Selected(keep, n)[j]
  {
    if n > 0 {
      SelectedInOrder(keep, n - 1);
    }
  }

  /** Every flagged index below `n` is selected. */
  lemma {:induction false} SelectedComplete(keep: seq<bool>, n: nat)
    requires n <= |keep|
    ensures forall k :: 0 <= k < n && keep[k] ==> k in Selected(keep, n)
  {
    if n > 0 {
      SelectedComplete(keep, n - 1);
    }
  }

  /** Which identity files give a section. */
  function FileFlags(docs: Store, faults: Faults, keyed: seq<(Path, string)>): (r: seq<bool>)
    ensures |r| == |keyed|
    ensures forall k :: 0 <= k < |keyed| ==> r[k] == HasContent(docs, faults, keyed[k].0)
  {
    seq(|keyed|, k requires 0 <= k < |keyed| => HasContent(docs, faults, keyed[k].0))
  }

  /** Which daily logs give a section. */
  function LogFlags(docs: Store, faults: Faults, dates: seq<Date>): (r: seq<bool>)
    ensures |r| == |dates|
    ensures forall k :: 0 <= k < |dates| ==> r[k] == LogHasContent(docs, faults, dates[k])
  {
    seq(|dates|, k requires 0 <= k < |dates| => LogHasContent(docs, faults, dates[k]))
  }

  /** The `j`-th identity section belongs to the `j`-th selected file. */
  lemma {:induction false} IdentitySectionsSelected(docs: Store, faults: Faults, keyed: seq<(Path, string)>, n: nat)
    requires n <= |keyed|
    ensures var r := IdentitySections(docs, faults, keyed, n);
            var idx := Selected(FileFlags(docs, faults, keyed), n);
            && |idx| == |r|
            && forall j :: 0 <= j < |idx| ==>
                 idx[j] < |keyed| && keyed[idx[j]].0 in docs && r[j] == Section(keyed[idx[j]].1, docs[keyed[idx[j]].0])
  {
    if n > 0 {
      IdentitySectionsSelected(docs, faults, keyed, n - 1);
      var flags := FileFlags(docs, faults, keyed);
      var r0 := IdentitySections(docs, faults, keyed, n - 1);
      var idx0 := Selected(flags, n - 1);
      if flags[n - 1] {
        assert IdentitySections(docs, faults, keyed, n) == r0 + [Section(keyed[n - 1].1, docs[keyed[n - 1].0])];
        assert Selected(flags, n) == idx0 + [n - 1];
      } else {
        assert IdentitySections(docs, faults, keyed, n) == r0;
        assert Selected(flags, n) == idx0;
      }
    }
  }

  /** The identity sections are exactly those of the readable non-empty files, one each, in
      the order of the files. */
  lemma {:induction false} IdentitySectionsExactly(docs: Store, faults: Faults, keyed: seq<(Path, string)>, n: nat)
    requires n <= |keyed|
    ensures var r := IdentitySections(docs, faults, keyed, n);
            var idx := Selected(FileFlags(docs, faults, keyed), n);
            && |idx| == |r|
            && (forall j :: 0 <= j < |idx| ==> idx[j] < n && HasContent(docs, faults, keyed[idx[j]].0))
            && (forall j :: 0 <= j < |idx| ==> r[j] == Section(keyed[idx[j]].1, docs[keyed[idx[j]].0]))
            && (forall i, j :: 0 <= i < j < |idx| ==> idx[i] < idx[j])
            && (forall k :: 0 <= k < n && HasContent(docs, faults, keyed[k].0) ==> k in idx)
  {
    var flags := FileFlags(docs, faults, keyed);
    SelectedInOrder(flags, n);
    SelectedComplete(flags, n);
    IdentitySectionsSelected(docs, faults, keyed, n);
  }

  /** The `j`-th daily section belongs to the `j`-th selected date. */
  lemma {:induction false} DailySectionsSelected(docs: Store, faults: Faults, today: Date, dates: seq<Date>, n: nat)
    requires n <= |dates|
    ensures var r := DailySections(docs, faults, today, dates, n).1;
            var idx := Selected(LogFlags(docs, faults, dates), n);
            && |idx| == |r|
            && forall j :: 0 <= j < |idx| ==>
                 idx[j] < |dates| && DailyLogPath(dates[idx[j]]) in docs
                 && r[j] == Section(DailyHeader(today, dates[idx[j]]), docs[DailyLogPath(dates[idx[j]])])
  {
    if n > 0 {
      DailySectionsSelected(docs, faults, today, dates, n - 1);
      DailySectionsStep(docs, faults, today, dates, n);
      var flags := LogFlags(docs, faults, dates);
      var r0 := DailySections(docs, faults, today, dates, n - 1).1;
      var idx0 := Selected(flags, n - 1);
      if flags[n - 1] {
        assert Selected(flags, n) == idx0 + [n - 1];
      } else {
        assert DailySections(docs, faults, today, dates, n).1 == r0;
        assert Selected(flags, n) == idx0;
      }
    }
  }

  /** The daily sections are exactly those of the logs that exist, can be fetched and are not
      empty in the store `system_prompt` starts from, one per date, in the order of the dates. */
  lemma {:induction false} DailySectionsExactly(docs: Store, faults: Faults, today: Date, dates: seq<Date>, n: nat)
    requires n <= |dates|
    ensures var r := DailySections(docs, faults, today, dates, n).1;
            var idx := Selected(LogFlags(docs, faults, dates), n);
            && |idx| == |r|
            && (forall j :: 0 <= j < |idx| ==> idx[j] < n && LogHasContent(docs, faults, dates[idx[j]]))
            && (forall j :: 0 <= j < |idx| ==> r[j] == Section(DailyHeader(today, dates[idx[j]]), docs[DailyLogPath(dates[idx[j]])]))
            && (forall i, j :: 0 <= i < j < |idx| ==> idx[i] < idx[j])
            && (forall k :: 0 <= k < n && LogHasContent(docs, faults, dates[k]) ==> k in idx)
  {
    var flags := LogFlags(docs, faults, dates);
    SelectedInOrder(flags, n);
    SelectedComplete(flags, n);
    DailySectionsSelected(docs, faults, today, dates, n);
  }

  /** Today and yesterday; on the first representable date there is no yesterday and today
      is taken twice. */
  function PromptDates(today: Date, yesterday: Option<Date>): seq<Date> {
    [today, yesterday.GetOr(today)]
  }

  /** The store after `system_prompt` and the prompt: the sections joined by a rule, with the
      identity files (their paths normalized) as a parameter. */
  function Prompt(docs: Store, faults: Faults, keyed: seq<(Path, string)>, today: Date, yesterday: Option<Date>)
    : (r: (Store, string))
    ensures var identity := IdentitySections(docs, faults, keyed, |keyed|);
            identity != [] ==> |identity[0]| <= |r.1| && r.1[..|identity[0]|] == identity[0]
    ensures var daily := DailySections(docs, faults, today, PromptDates(today, yesterday), 2).1;
            daily != [] ==> |daily[|daily| - 1]| <= |r.1| && r.1[|r.1| - |daily[|daily| - 1]|..] == daily[|daily| - 1]
  {
    var identity := IdentitySections(docs, faults, keyed, |keyed|);
    var daily := DailySections(docs, faults, today, PromptDates(today, yesterday), 2);
    JoinEnds(identity, daily.1, SECTION_SEPARATOR);
    (daily.0, JoinWith(identity + daily.1, SECTION_SEPARATOR))
  }

  /** The daily sections of the prompt: today's log's, then the previous day's, each read off
      the store the prompt starts from. */
  lemma PromptDailySections(docs: Store, faults: Faults, today: Date, yesterday: Option<Date>)
    ensures DailySections(docs, faults, today, PromptDates(today, yesterday), 2).1
         == DailySection(docs, faults, today, today) + DailySection(docs, faults, today, yesterday.GetOr(today))
  {
    var dates := PromptDates(today, yesterday);
    DailySectionsStep(docs, faults, today, dates, 1);
    DailySectionsStep(docs, faults, today, dates, 2);
  }

  /** The prompt is its sections joined by the rule: the identity sections, then today's and
      the previous day's; each at its offset, every one but the last followed by the rule, and
      nothing after the last; no sections give the empty prompt. */
  lemma PromptLayout(docs: Store, faults: Faults, keyed: seq<(Path, string)>, today: Date, yesterday: Option<Date>)
    ensures var parts := IdentitySections(docs, faults, keyed, |keyed|)
                         + DailySection(docs, faults, today, today) + DailySection(docs, faults, today, yesterday.GetOr(today));
            var text := Prompt(docs, faults, keyed, today, yesterday).1;
            && (parts == [] ==> text == "")
            && (parts != [] ==>
                  && |text| == JoinOffset(parts, SECTION_SEPARATOR, |parts| - 1) + |parts[|parts| - 1]|
                  && (forall k :: 0 <= k < |parts| ==> HoldsAt(text, parts[k], JoinOffset(parts, SECTION_SEPARATOR, k)))
                  && (forall k :: 0 <= k < |parts| - 1 ==>
                        HoldsAt(text, parts[k] + SECTION_SEPARATOR, JoinOffset(parts, SECTION_SEPARATOR, k))))
  {
    var parts := IdentitySections(docs, faults, keyed, |keyed|)
                 + DailySection(docs, faults, today, today) + DailySection(docs, faults, today, yesterday.GetOr(today));
    PromptJoins(docs, faults, keyed, today, yesterday);
    if parts != [] {
      JoinLayout(parts, SECTION_SEPARATOR);
    }
  }

  /** The prompt is the join of its identity sections and its two daily sections. */
  lemma PromptJoins(docs: Store, faults: Faults, keyed: seq<(Path, string)>, today: Date, yesterday: Option<Date>)
    ensures Prompt(docs, faults, keyed, today, yesterday).1
         == JoinWith(IdentitySections(docs, faults, keyed, |keyed|)
                     + DailySection(docs, faults, today, today) + DailySection(docs, faults, today, yesterday.GetOr(today)),
                     SECTION_SEPARATOR)
  {
    var identity := IdentitySections(docs, faults, keyed, |keyed|);
    PromptDailySections(docs, faults, today, yesterday);
    assert identity + (DailySection(docs, faults, today, today) + DailySection(docs, faults, today, yesterday.GetOr(today)))
        == identity + DailySection(docs, faults, today, today) + DailySection(docs, faults, today, yesterday.GetOr(today));
  }

  /** One pass of the first loop of `system_prompt`: add the section of the `i`-th file, if
      `read` finds it and it is not empty. */
  method IdentityPart(docs: Store, faults: Faults, files: seq<(Path, string)>, i: nat, parts: seq<string>)
    returns (next: seq<string>)
    requires i < |files| && parts == IdentitySections(docs, faults, Keyed(files), i)
    ensures next == IdentitySections(docs, faults, Keyed(files), i + 1)
  {
    var (path, header) := files[i];
    assert Keyed(files)[i] == (Normalized(path), header);
    next := parts;
    var read := Read(docs, faults, path);
    if read.Ok? && read.value != "" {
      next := parts + [Section(header, read.value)];
    }
  }

  /** The first loop of `system_prompt`. */
  method LoadIdentity(docs: Store, faults: Faults, files: seq<(Path, string)>) returns (parts: seq<string>)
    ensures parts == IdentitySections(docs, faults, Keyed(files), |files|)
  {
    parts := [];
    for i := 0 to |files|
      invariant parts == IdentitySections(docs, faults, Keyed(files), i)
    {
      parts := IdentityPart(docs, faults, files, i, parts);
    }
  }

  /** The second loop of `system_prompt`. */
  method LoadDailyLogs(docs: Store, faults: Faults, today: Date, dates: seq<Date>) returns (after: Store, parts: seq<string>)
    ensures (after, parts) == DailySections(docs, faults, today, dates, |dates|)
  {
    after, parts := docs, [];
    for i := 0 to |dates|
      invariant (after, parts) == DailySections(docs, faults, today, dates, i)
    {
      var date := dates[i];
      var log := DailyLog(after, faults, date);
      after := log.docs;
      if log.result.Ok? && log.result.value != "" {
        var header := if date == today then TODAY_HEADER else YESTERDAY_HEADER;
        parts := parts + [Section(header, log.result.value)];
      }
    }
  }

  /** `system_prompt`, with the clock's date and the day before it as parameters. */
  method SystemPrompt(docs: Store, faults: Faults, today: Date, yesterday: Option<Date>) returns (prompt: string, after: Store)
    ensures (after, prompt) == Prompt(docs, faults, Keyed(IDENTITY_FILES), today, yesterday)
  {
    var identity := LoadIdentity(docs, faults, IDENTITY_FILES);
    var daily;
    after, daily := LoadDailyLogs(docs, faults, today, [today, yesterday.GetOr(today)]);
    prompt := JoinWith(identity + daily, SECTION_SEPARATOR);
  }

  /** Every identity section is non-empty: it starts with its header. */
  lemma {:induction false} IdentitySectionsNonEmpty(docs: Store, faults: Faults, keyed: seq<(Path, string)>, n: nat)
    requires n <= |keyed|
    requires forall k :: 0 <= k < |keyed| ==> keyed[k].1 != ""
    ensures forall k :: 0 <= k < |IdentitySections(docs, faults, keyed, n)| ==> IdentitySections(docs, faults, keyed, n)[k] != ""
  {
    if n > 0 {
      IdentitySectionsNonEmpty(docs, faults, keyed, n - 1);
    }
  }

  /** Every daily section is non-empty. */
  lemma {:induction false} DailySectionsNonEmpty(docs: Store, faults: Faults, today: Date, dates: seq<Date>, n: nat)
    requires n <= |dates|
    ensures forall k :: 0 <= k < |DailySections(docs, faults, today, dates, n).1| ==> DailySections(docs, faults, today, dates, n).1[k] != ""
  {
    if n > 0 {
      DailySectionsNonEmpty(docs, faults, today, dates, n - 1);
    }
  }

  /** The prompt is empty exactly when no identity file and no daily log has content to show. */
  lemma PromptEmptyIff(docs: Store, faults: Faults, keyed: seq<(Path, string)>, today: Date, yesterday: Option<Date>)
    requires forall k :: 0 <= k < |keyed| ==> keyed[k].1 != ""
    ensures Prompt(docs, faults, keyed, today, yesterday).1 == "" <==>
              && IdentitySections(docs, faults, keyed, |keyed|) == []
              && DailySections(docs, faults, today, PromptDates(today, yesterday), 2).1 == []
  {
    var identity := IdentitySections(docs, faults, keyed, |keyed|);
    var daily := DailySections(docs, faults, today, PromptDates(today, yesterday), 2).1;
    IdentitySectionsNonEmpty(docs, faults, keyed, |keyed|);
    DailySectionsNonEmpty(docs, faults, today, PromptDates(today, yesterday), 2);
    assert forall k :: 0 <= k < |identity + daily| ==> (identity + daily)[k] != "";
    JoinEmptyIff(identity + daily, SECTION_SEPARATOR);
  }

  /** When every identity file has content, each gives its section, in the order of the files. */
  lemma {:induction false} IdentitySectionsAll(docs: Store, faults: Faults, keyed: seq<(Path, string)>, n: nat)
    requires n <= |keyed|
    requires forall k :: 0 <= k < n ==> keyed[k].0 in docs && keyed[k].0 !in faults.readFails && docs[keyed[k].0] != ""
    ensures |IdentitySections(docs, faults, keyed, n)| == n
    ensures forall k :: 0 <= k < n ==> IdentitySections(docs, faults, keyed, n)[k] == Section(keyed[k].1, docs[keyed[k].0])
  {
    if n > 0 {
      IdentitySectionsAll(docs, faults, keyed, n - 1);
    }
  }

  /** The daily log paths of the first `n` dates. */
  function DailyPaths(dates: seq<Date>, n: nat): set<Path>
    requires n <= |dates|
  {
    if n == 0 then {} else DailyPaths(dates, n - 1) + {DailyLogPath(dates[n - 1])}
  }

  /** Loading the daily logs keeps every document as it was. */
  lemma {:induction false} DailySectionsKeep(docs: Store, faults: Faults, today: Date, dates: seq<Date>, n: nat)
    requires n <= |dates|
    ensures var after := DailySections(docs, faults, today, dates, n).0;
            forall q :: q in docs ==> q in after && after[q] == docs[q]
  {
    if n > 0 {
      DailySectionsKeep(docs, faults, today, dates, n - 1);
    }
  }

  /** Loading the daily logs adds nothing but missing logs, created empty. */
  lemma {:induction false} DailySectionsCreateLogs(docs: Store, faults: Faults, today: Date, dates: seq<Date>, n: nat)
    requires n <= |dates|
    ensures var after := DailySections(docs, faults, today, dates, n).0;
            forall q :: q in after && q !in docs ==> after[q] == "" && q in DailyPaths(dates, n)
  {
    if n > 0 {
      DailySectionsCreateLogs(docs, faults, today, dates, n - 1);
      var before := DailySections(docs, faults, today, dates, n - 1).0;
      var log := DailyLog(before, faults, dates[n - 1]);
      assert DailySections(docs, faults, today, dates, n).0 == log.docs;
      assert log.docs == before || log.docs == before[DailyLogPath(dates[n - 1]) := ""];
    }
  }

  /** So `system_prompt` leaves every document as it was and creates at most today's and
      yesterday's logs, empty. */
  lemma PromptOnlyCreatesLogs(docs: Store, faults: Faults, keyed: seq<(Path, string)>, today: Date, yesterday: Option<Date>)
    ensures var after := Prompt(docs, faults, keyed, today, yesterday).0;
            && (forall q :: q in docs ==> q in after && after[q] == docs[q])
            && (forall q :: q in after && q !in docs ==>
                  after[q] == "" && (q == DailyLogPath(today) || q == DailyLogPath(yesterday.GetOr(today))))
  {
    DailySectionsKeep(docs, faults, today, PromptDates(today, yesterday), 2);
    DailySectionsCreateLogs(docs, faults, today, PromptDates(today, yesterday), 2);
  }

  /** An empty store has no identity sections. */
  lemma {:induction false} NothingToReadOnEmptyStore(faults: Faults, keyed: seq<(Path, string)>, n: nat)
    requires n <= |keyed|
    ensures IdentitySections(map[], faults, keyed, n) == []
  {
    if n > 0 {
      NothingToReadOnEmptyStore(faults, keyed, n - 1);
      assert !HasContent(map[], faults, keyed[n - 1].0);
    }
  }

  /** On an empty workspace the prompt is empty, and only the two daily logs now exist. */
  lemma FreshPromptEmpty(faults: Faults, keyed: seq<(Path, string)>, today: Date, yesterday: Option<Date>)
    requires faults.createFails == {}
    ensures var y := yesterday.GetOr(today);
            Prompt(map[], faults, keyed, today, yesterday) == (map[DailyLogPath(today) := "", DailyLogPath(y) := ""], "")
  {
    var dates := PromptDates(today, yesterday);
    NothingToReadOnEmptyStore(faults, keyed, |keyed|);
    var y := yesterday.GetOr(today);
    var first: Store := map[DailyLogPath(today) := ""];
    assert DailySections(map[], faults, today, dates, 1) == (first, []);
    assert DailyLog(first, faults, y).docs == first[DailyLogPath(y) := ""];
    assert DailySections(map[], faults, today, dates, 2) == (first[DailyLogPath(y) := ""], []);
    assert JoinWith([], SECTION_SEPARATOR) == "";
  }

  /** With a log for yesterday, its section comes after today's under its own header. */
  lemma BothDaysShown(docs: Store, faults: Faults, today: Date, yesterday: Date)
    requires yesterday != today
    requires DailyLogPath(today) !in faults.createFails && DailyLogPath(yesterday) !in faults.createFails
    requires DailyLogPath(today) in docs && docs[DailyLogPath(today)] != ""
    requires DailyLogPath(yesterday) in docs && docs[DailyLogPath(yesterday)] != ""
    ensures DailySections(docs, faults, today, PromptDates(today, Some(yesterday)), 2)
         == (docs, [Section(TODAY_HEADER, docs[DailyLogPath(today)]), Section(YESTERDAY_HEADER, docs[DailyLogPath(yesterday)])])
  {
    var dates := PromptDates(today, Some(yesterday));
    assert dates[1] == yesterday && DailyHeader(today, yesterday) == YESTERDAY_HEADER;
    assert DailyLog(docs, faults, yesterday) == Step(docs, Ok(docs[DailyLogPath(yesterday)]));
    assert dates[0] == today;
    assert DailyLog(docs, faults, today) == Step(docs, Ok(docs[DailyLogPath(today)]));
    assert DailySections(docs, faults, today, dates, 0) == (docs, []);
    assert [] + [Section(TODAY_HEADER, docs[DailyLogPath(today)])] == [Section(TODAY_HEADER, docs[DailyLogPath(today)])];
    assert DailySections(docs, faults, today, dates, 1) == (docs, [Section(TODAY_HEADER, docs[DailyLogPath(today)])]);
    var s1 := Section(TODAY_HEADER, docs[DailyLogPath(today)]);
    var s2 := Section(YESTERDAY_HEADER, docs[DailyLogPath(yesterday)]);
    assert [s1] + [s2] == [s1, s2];
  }

  /** Without a yesterday, today's non-empty log is shown twice, both times as today's. */
  lemma NoYesterdayRepeatsToday(docs: Store, faults: Faults, today: Date)
    requires DailyLogPath(today) !in faults.createFails
    requires DailyLogPath(today) in docs && docs[DailyLogPath(today)] != ""
    ensures var s := Section(TODAY_HEADER, docs[DailyLogPath(today)]);
            DailySections(docs, faults, today, PromptDates(today, None), 2) == (docs, [s, s])
  {
    var dates := PromptDates(today, None);
    assert dates[1] == today;
    assert dates[0] == today;
    assert DailyLog(docs, faults, today) == Step(docs, Ok(docs[DailyLogPath(today)]));
    assert DailySections(docs, faults, today, dates, 0) == (docs, []);
    assert [] + [Section(TODAY_HEADER, docs[DailyLogPath(today)])] == [Section(TODAY_HEADER, docs[DailyLogPath(today)])];
    assert DailySections(docs, faults, today, dates, 1) == (docs, [Section(TODAY_HEADER, docs[DailyLogPath(today)])]);
    var s := Section(TODAY_HEADER, docs[DailyLogPath(today)]);
    assert [s] + [s] == [s, s];
  }
}
