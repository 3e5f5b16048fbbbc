/** src/auditLog.ts: the hash-chained, rotated, append-only audit log. */
module AuditLogs {
  import opened Core
  import opened JsonlStore

  datatype Decision =
    | Allowed | Denied | Revoked
    | RequestSubmitted | RequestApproved | RequestDenied | RequestEscalated | RequestDecisionRejected
    | AnomalyDetected | PolicyCreated | PolicyModified | CircuitOpened | CircuitClosed
    | RedactionRuleCreated | DataAccessed | AgentIdentityRegistered | TokenSecretClaimed

  /** What a caller hands to record(). */
  datatype Event = Event(
    decision: Decision,
    action: string,
    subject: string,
    tokenId: Option<string>,
    requestId: Option<string>,
    policyId: Option<string>,
    reasonCode: Option<string>,
    actor: Option<string>)

  /** Everything the entry hash covers. */
  datatype Body = Body(id: string, occurredAt: int, event: Event, previousHash: Option<string>)

  datatype AuditEntry = AuditEntry(body: Body, hash: string)

  /** computeEntryHash, left uninterpreted. */
  type Digest = Body -> string

  // ---- The chain -------------------------------------------------------

  function Head(entries: seq<AuditEntry>): Option<string> {
    if entries == [] then None else Some(entries[|entries| - 1].hash)
  }

  predicate Links(digest: Digest, entry: AuditEntry, expectedPrevious: Option<string>) {
    entry.body.previousHash == expectedPrevious && digest(entry.body) == entry.hash
  }

  ghost predicate ChainValid(digest: Digest, entries: seq<AuditEntry>) {
    forall i :: 0 <= i < |entries| ==> Links(digest, entries[i], Head(entries[..i]))
  }

  /** Entry k is the first whose link fails: everything before it verifies. */
  ghost predicate FirstBreak(digest: Digest, entries: seq<AuditEntry>, k: int) {
    && 0 <= k < |entries|
    && ChainValid(digest, entries[..k])
    && !Links(digest, entries[k], Head(entries[..k]))
  }

  datatype ChainVerification = ChainVerification(valid: bool, brokenAtId: Option<string>, entriesChecked: nat)

  lemma ChainPrefix(digest: Digest, entries: seq<AuditEntry>, k: nat)
    requires ChainValid(digest, entries) && k <= |entries|
    ensures ChainValid(digest, entries[..k])
  {
    forall i | 0 <= i < k
      ensures Links(digest, entries[..k][i], Head(entries[..k][..i]))
    {
      assert entries[..k][..i] == entries[..i];
    }
  }

  lemma ChainExtend(digest: Digest, entries: seq<AuditEntry>, e: AuditEntry)
    requires ChainValid(digest, entries) && Links(digest, e, Head(entries))
    ensures ChainValid(digest, entries + [e])
  {
    forall i | 0 <= i < |entries| + 1
      ensures Links(digest, (entries + [e])[i], Head((entries + [e])[..i]))
    {
      assert (entries + [e])[..i] == entries[..i];
      assert entries[..|entries|] == entries;
    }
  }

  method VerifyAuditChain(digest: Digest, entries: seq<AuditEntry>) returns (v: ChainVerification)
    ensures v.valid <==> ChainValid(digest, entries)
    ensures v.valid ==> v.brokenAtId == None
    ensures !v.valid ==> exists k :: FirstBreak(digest, entries, k) && v.brokenAtId == Some(entries[k].body.id)
    ensures v.entriesChecked == |entries|
  {
    var expectedPrevious := None;
    for i := 0 to |entries|
      invariant ChainValid(digest, entries[..i])
      invariant expectedPrevious == Head(entries[..i])
    {
      if entries[i].body.previousHash != expectedPrevious || digest(entries[i].body) != entries[i].hash {
        assert FirstBreak(digest, entries, i);
        assert !ChainValid(digest, entries);
        return ChainVerification(false, Some(entries[i].body.id), |entries|);
      }
      ChainExtend(digest, entries[..i], entries[i]);
      assert entries[..i + 1] == entries[..i] + [entries[i]];
      expectedPrevious := Some(entries[i].hash);
    }
    assert entries[..|entries|] == entries;
    return ChainVerification(true, None, |entries|);
  }

  ghost predicate CollisionFree(digest: Digest) {
    forall a, b :: digest(a) == digest(b) ==> a == b
  }

  /** The head hash commits to the whole log. */
  lemma {:induction false} HeadDeterminesChain(digest: Digest, a: seq<AuditEntry>, b: seq<AuditEntry>)
    requires CollisionFree(digest)
    requires ChainValid(digest, a) && ChainValid(digest, b)
    requires Head(a) == Head(b)
    ensures a == b
  {
    if a != [] {
      var m, n := |a| - 1, |b| - 1;
      assert Links(digest, a[m], Head(a[..m])) && Links(digest, b[n], Head(b[..n]));
      assert a[m].body == b[n].body;
      ChainPrefix(digest, a, m);
      ChainPrefix(digest, b, n);
      HeadDeterminesChain(digest, a[..m], b[..n]);
      assert a == a[..m] + [a[m]] && b == b[..n] + [b[n]];
    }
  }

  /** So an edit, deletion, insertion or reordering that leaves the head alone
      is rejected, and the report names the first entry that does not link. */
  lemma TamperingRejected(digest: Digest, original: seq<AuditEntry>, tampered: seq<AuditEntry>)
    requires CollisionFree(digest)
    requires ChainValid(digest, original)
    requires Head(tampered) == Head(original) && tampered != original
    ensures exists k :: FirstBreak(digest, tampered, k)
  {
    if ChainValid(digest, tampered) {
      HeadDeterminesChain(digest, original, tampered);
    }
    BreakExists(digest, tampered);
  }

  lemma {:induction false} BreakExists(digest: Digest, entries: seq<AuditEntry>)
    requires !ChainValid(digest, entries)
    ensures exists k :: FirstBreak(digest, entries, k)
  {
    var n := |entries| - 1;
    if ChainValid(digest, entries[..n]) {
      assert entries == entries[..n] + [entries[n]];
      if Links(digest, entries[n], Head(entries[..n])) {
        ChainExtend(digest, entries[..n], entries[n]);
      }
      assert FirstBreak(digest, entries, n);
    } else {
      BreakExists(digest, entries[..n]);
      var k :| FirstBreak(digest, entries[..n], k);
      assert entries[..n][..k] == entries[..k];
      assert FirstBreak(digest, entries, k);
    }
  }

  // ---- Segments on disk ------------------------------------------------

  /** The active file and its archived segments, by index. */
  datatype Disk = Disk(archives: map<nat, seq<Line<AuditEntry>>>, active: File<AuditEntry>)

  ghost function Highest(keys: set<nat>): (m: nat)
    requires keys != {}
    ensures m in keys && forall k :: k in keys ==> k <= m
  {
    var k :| k in keys;
    if keys == {k} then k else
      assert forall j :: j in keys ==> j == k || j in keys - {k};
      Max(k, Highest(keys - {k}))
  }

  ghost function Ascending(keys: set<nat>): seq<nat> {
    if keys == {} then [] else Ascending(keys - {Highest(keys)}) + [Highest(keys)]
  }

  lemma {:induction false} AscendingAppend(keys: set<nat>, top: nat)
    requires forall k :: k in keys ==> k < top
    ensures Ascending(keys + {top}) == Ascending(keys) + [top]
  {
    var all := keys + {top};
    assert top in all;
    assert Highest(all) == top;
    assert all - {top} == keys;
  }

  lemma {:induction false} AscendingElements(keys: set<nat>)
    ensures forall k :: k in Ascending(keys) <==> k in keys
  {
    if keys != {} {
      AscendingElements(keys - {Highest(keys)});
    }
  }

  /** Ascending lists each element once, smallest first. */
  lemma {:induction false} AscendingSorted(keys: set<nat>)
    ensures forall i, j :: 0 <= i < j < |Ascending(keys)| ==> Ascending(keys)[i] < Ascending(keys)[j]
  {
    if keys != {} {
      var top := Highest(keys);
      AscendingSorted(keys - {top});
      AscendingElements(keys - {top});
      forall i | 0 <= i < |Ascending(keys - {top})|
        ensures Ascending(keys - {top})[i] < top
      {
        assert Ascending(keys - {top})[i] in keys - {top};
      }
    }
  }

  /** scanArchivedSegments: the segment indices, each once, oldest first. */
  method ScanArchivedSegments(archives: map<nat, seq<Line<AuditEntry>>>) returns (indices: seq<nat>)
    ensures indices == Ascending(archives.Keys)
    ensures forall k :: k in indices <==> k in archives
    ensures forall i, j :: 0 <= i < j < |indices| ==> indices[i] < indices[j]
  {
    var rest := archives.Keys;
    indices := [];
    while rest != {}
      invariant Ascending(rest) + indices == Ascending(archives.Keys)
      decreases rest
    {
      var top :| top in rest;
      var seen, others := {top}, rest - {top};
      while others != {}
        invariant top in seen && forall k :: k in seen ==> k <= top
        invariant seen + others == rest
        decreases others
      {
        var k :| k in others;
        seen, others := seen + {k}, others - {k};
        if k > top { top := k; }
      }
      assert top == Highest(rest);
      rest, indices := rest - {top}, [top] + indices;
    }
    AscendingElements(archives.Keys);
    AscendingSorted(archives.Keys);
  }

  /** Entries of the archived segments, in the order of the given indices. */
  function ArchivedEntries(archives: map<nat, seq<Line<AuditEntry>>>, indices: seq<nat>): seq<AuditEntry>
    requires forall i :: i in indices ==> i in archives
  {
    if indices == [] then []
    else
      var n := |indices| - 1;
      ArchivedEntries(archives, indices[..n]) + Parsed(archives[indices[n]])
  }

  lemma {:induction false} OneMoreSegment(archives: map<nat, seq<Line<AuditEntry>>>, indices: seq<nat>, i: nat)
    requires i < |indices| && forall k :: k in indices ==> k in archives
    ensures ArchivedEntries(archives, indices[..i + 1])
         == ArchivedEntries(archives, indices[..i]) + Parsed(archives[indices[i]])
  {
    assert indices[..i + 1][..i] == indices[..i];
  }

  lemma {:induction false} ArchivedElsewhere(
    a: map<nat, seq<Line<AuditEntry>>>, b: map<nat, seq<Line<AuditEntry>>>, indices: seq<nat>)
    requires forall i :: i in indices ==> i in a && i in b && a[i] == b[i]
    ensures ArchivedEntries(a, indices) == ArchivedEntries(b, indices)
  {
    if indices != [] {
      var n := |indices| - 1;
      assert indices[n] in indices;
      ArchivedElsewhere(a, b, indices[..n]);
    }
  }

  /** Everything on disk, oldest first: archives by index, then the active file. */
  ghost function OnDisk(disk: Disk): seq<AuditEntry> {
    AscendingElements(disk.archives.Keys);
    ArchivedEntries(disk.archives, Ascending(disk.archives.Keys)) + Parsed(LinesOf(disk.active))
  }

  ghost function NextIndex(keys: set<nat>): nat {
    if keys == {} then 1 else Highest(keys) + 1
  }

  // ---- The log as a value ----------------------------------------------

  datatype LogState = LogState(entries: seq<AuditEntry>, maxLines: int, segmentLines: nat, disk: Option<Disk>)

  /** A refusal with no reason, which record() itself rejects. */
  predicate MissingReason(e: Event) {
    && e.decision in {Denied, RequestDenied, RequestDecisionRejected}
    && (e.reasonCode.None? || Blank(e.reasonCode.value))
  }

  /** An entry that refuses something says why, in more than white space. */
  ghost predicate Reasoned(e: Event) {
    e.decision == Denied || e.decision == RequestDenied || e.decision == RequestDecisionRejected ==>
      e.reasonCode.Some? && Inked(e.reasonCode.value)
  }

  /** What record() rejects is exactly a refusal with no such reason. */
  lemma RejectedIffUnreasoned(e: Event)
    ensures MissingReason(e) <==> !Reasoned(e)
  {
    if e.reasonCode.Some? {
      BlankIffNoInk(e.reasonCode.value);
    }
  }

  function NewEntry(digest: Digest, entries: seq<AuditEntry>, e: Event, id: string, now: int): AuditEntry {
    var body := Body(id, now, e, Head(entries));
    AuditEntry(body, digest(body))
  }

  /** rotateIfNeeded */
  ghost function Rotated(st: LogState): LogState {
    if st.disk.None? || st.segmentLines < st.maxLines then st
    else
      var disk := st.disk.value;
      if disk.active.None? then st.(segmentLines := 0)
      else
        var archives := disk.archives[NextIndex(disk.archives.Keys) := disk.active.value];
        st.(segmentLines := 0, disk := Some(Disk(archives, None)))
  }

  /** record */
  ghost function Recording(digest: Digest, st: LogState, e: Event, id: string, now: int): LogState {
    if MissingReason(e) then st
    else
      var full := NewEntry(digest, st.entries, e, id, now);
      var grown := st.(entries := st.entries + [full]);
      if st.disk.None? then grown
      else
        var r := Rotated(grown);
        var disk := r.disk.value;
        r.(segmentLines := r.segmentLines + 1, disk := Some(disk.(active := Appended(disk.active, full))))
  }

  /** The constructor, run over what is on disk. */
  ghost function Opened(disk: Option<Disk>, maxLines: int): LogState {
    if disk.None? then LogState([], maxLines, 0, None)
    else LogState(OnDisk(disk.value), maxLines, |LinesOf(disk.value.active)|, disk)
  }

  /** Memory and files hold the same entries, whether or not they verify. */
  ghost predicate Tracked(st: LogState) {
    st.disk.Some? ==> FilesInStep(st) && st.entries == OnDisk(st.disk.value)
  }

  /** A log in step with its files, none of them tampered with. */
  ghost predicate InStep(digest: Digest, st: LogState) {
    ChainValid(digest, st.entries) && Tracked(st)
  }

  ghost predicate NumberedTo(keys: set<nat>, n: nat) {
    forall k: nat :: k in keys <==> 1 <= k <= n
  }

  /** The numbers 1 to n, for some n. */
  ghost predicate Numbered(keys: set<nat>) {
    exists n: nat :: NumberedTo(keys, n)
  }

  lemma NumberedGoesOn(keys: set<nat>)
    requires Numbered(keys)
    ensures Numbered(keys + {NextIndex(keys)})
  {
    var n: nat :| NumberedTo(keys, n);
    if n == 0 {
      assert keys == {};
    } else {
      assert n in keys;
      assert Highest(keys) == n;
    }
    assert NumberedTo(keys + {NextIndex(keys)}, n + 1);
  }

  /** Archives are numbered without a gap, every one is full and the active file, unless empty, not over-full. A
      maximum below one acts as one, since rotation then moves single lines. */
  ghost predicate SegmentsBounded(st: LogState) {
    st.disk.Some? ==>
      && st.disk.value.active != Some([])
      && Numbered(st.disk.value.archives.Keys)
      && (forall i :: i in st.disk.value.archives ==> |st.disk.value.archives[i]| == Max(1, st.maxLines))
      && |LinesOf(st.disk.value.active)| <= Max(1, st.maxLines)
  }

  lemma RotationKeepsOrder(disk: Disk)
    requires disk.active.Some?
    ensures OnDisk(Disk(disk.archives[NextIndex(disk.archives.Keys) := disk.active.value], None)) == OnDisk(disk)
  {
    var keys, next := disk.archives.Keys, NextIndex(disk.archives.Keys);
    var after := disk.archives[next := disk.active.value];
    AscendingAppend(keys, next);
    assert after.Keys == keys + {next};
    AscendingElements(keys);
    AscendingElements(after.Keys);
    var indices := Ascending(after.Keys);
    assert indices[..|indices| - 1] == Ascending(keys);
    ArchivedElsewhere(disk.archives, after, Ascending(keys));
  }

  ghost predicate FilesInStep(st: LogState) {
    && st.disk.Some?
    && st.segmentLines == |LinesOf(st.disk.value.active)|
  }

  lemma RotatedKeepsFiles(st: LogState)
    requires FilesInStep(st)
    ensures var r := Rotated(st);
            && FilesInStep(r) && r.entries == st.entries && r.maxLines == st.maxLines
            && OnDisk(r.disk.value) == OnDisk(st.disk.value)
            && (SegmentsBounded(st) ==> SegmentsBounded(r) && r.segmentLines < Max(1, r.maxLines))
  {
    var disk := st.disk.value;
    if disk.active.Some? {
      RotationKeepsOrder(disk);
      if SegmentsBounded(st) && st.segmentLines >= st.maxLines {
        NumberedGoesOn(disk.archives.Keys);
        assert Rotated(st).disk.value.archives.Keys == disk.archives.Keys + {NextIndex(disk.archives.Keys)};
      }
    }
  }

  lemma AppendedOnDisk(disk: Disk, full: AuditEntry)
    ensures OnDisk(disk.(active := Appended(disk.active, full))) == OnDisk(disk) + [full]
  {
    ParsedAppend(disk.active, full);
    AscendingElements(disk.archives.Keys);
  }

  /** Recording appends, in memory and on disk alike, to whatever is there. */
  lemma RecordingTracks(digest: Digest, st: LogState, e: Event, id: string, now: int)
    requires Tracked(st)
    ensures var after := Recording(digest, st, e, id, now);
            && Tracked(after) && after.disk.Some? == st.disk.Some?
            && after.maxLines == st.maxLines
            && (SegmentsBounded(st) ==> SegmentsBounded(after))
            && after.entries == (if MissingReason(e) then st.entries
                                 else st.entries + [NewEntry(digest, st.entries, e, id, now)])
  {
    if !MissingReason(e) && st.disk.Some? {
      var full := NewEntry(digest, st.entries, e, id, now);
      var grown := st.(entries := st.entries + [full]);
      RotatedKeepsFiles(grown);
      AppendedOnDisk(Rotated(grown).disk.value, full);
    }
  }

  lemma RecordingInStep(digest: Digest, st: LogState, e: Event, id: string, now: int)
    requires InStep(digest, st)
    ensures InStep(digest, Recording(digest, st, e, id, now))
  {
    RecordingTracks(digest, st, e, id, now);
    if !MissingReason(e) {
      ChainExtend(digest, st.entries, NewEntry(digest, st.entries, e, id, now));
    }
  }

  lemma OpenedInStep(digest: Digest, st: LogState, maxLines: int)
    requires Tracked(st) && st.disk.Some?
    ensures Tracked(Opened(st.disk, maxLines)) && Opened(st.disk, maxLines).entries == st.entries
    ensures InStep(digest, st) ==> InStep(digest, Opened(st.disk, maxLines))
    ensures SegmentsBounded(st) && maxLines == st.maxLines ==> SegmentsBounded(Opened(st.disk, maxLines))
  {
  }

  // ---- Whole runs --------------------------------------------------------

  datatype LogOp = Record(event: Event, id: string, now: int) | Reopen(maxLines: int)

  ghost function RunLog(digest: Digest, st: LogState, ops: seq<LogOp>): LogState
    decreases |ops|
  {
    if ops == [] then st
    else
      match ops[0]
      case Record(e, id, now) => RunLog(digest, Recording(digest, st, e, id, now), ops[1..])
      case Reopen(maxLines) => RunLog(digest, Opened(st.disk, maxLines), ops[1..])
  }

  /** The same operations on a log that has no files and never restarts. */
  function FlatLog(digest: Digest, entries: seq<AuditEntry>, ops: seq<LogOp>): seq<AuditEntry>
    decreases |ops|
  {
    if ops == [] then entries
    else if ops[0].Record? && !MissingReason(ops[0].event) then
      FlatLog(digest, entries + [NewEntry(digest, entries, ops[0].event, ops[0].id, ops[0].now)], ops[1..])
    else FlatLog(digest, entries, ops[1..])
  }

  const EMPTY_DISK := Disk(map[], None)

  /** Another linked entry neither mends nor breaks what is before it. */
  lemma EntryKeepsVerdict(digest: Digest, entries: seq<AuditEntry>, full: AuditEntry)
    requires Links(digest, full, Head(entries))
    ensures ChainValid(digest, entries + [full]) <==> ChainValid(digest, entries)
  {
    if ChainValid(digest, entries) {
      ChainExtend(digest, entries, full);
    }
    if ChainValid(digest, entries + [full]) {
      ChainPrefix(digest, entries + [full], |entries|);
      assert (entries + [full])[..|entries|] == entries;
    }
  }

  lemma {:induction false} FlatLogGrows(digest: Digest, entries: seq<AuditEntry>, ops: seq<LogOp>)
    ensures entries <= FlatLog(digest, entries, ops)
    ensures ChainValid(digest, FlatLog(digest, entries, ops)) <==> ChainValid(digest, entries)
    decreases |ops|
  {
    if ops != [] {
      if ops[0].Record? && !MissingReason(ops[0].event) {
        var full := NewEntry(digest, entries, ops[0].event, ops[0].id, ops[0].now);
        FlatLogGrows(digest, entries + [full], ops[1..]);
        EntryKeepsVerdict(digest, entries, full);
      } else {
        FlatLogGrows(digest, entries, ops[1..]);
      }
    }
  }

  ghost predicate AllReasoned(entries: seq<AuditEntry>) {
    forall e :: e in entries ==> Reasoned(e.body.event)
  }

  /** However it is used, the log holds no refusal without a reason. */
  lemma {:induction false} RefusalsAreReasoned(digest: Digest, entries: seq<AuditEntry>, ops: seq<LogOp>)
    requires AllReasoned(entries)
    ensures AllReasoned(FlatLog(digest, entries, ops))
    decreases |ops|
  {
    if ops != [] {
      if ops[0].Record? && !MissingReason(ops[0].event) {
        RejectedIffUnreasoned(ops[0].event);
        var full := NewEntry(digest, entries, ops[0].event, ops[0].id, ops[0].now);
        RefusalsAreReasoned(digest, entries + [full], ops[1..]);
      } else {
        RefusalsAreReasoned(digest, entries, ops[1..]);
      }
    }
  }

  /** Rotation and restarts are invisible: memory, and the files read in order,
      hold exactly the flat log, whatever the segment size is at each start and
      whatever was on disk at first; and the log verifies iff it did at first. */
  lemma {:induction false} RotationRefinesFlatLog(digest: Digest, st: LogState, ops: seq<LogOp>)
    requires Tracked(st) && st.disk.Some?
    ensures var end := RunLog(digest, st, ops);
            && end.disk.Some?
            && end.entries == FlatLog(digest, st.entries, ops)
            && OnDisk(end.disk.value) == FlatLog(digest, st.entries, ops)
            && (ChainValid(digest, end.entries) <==> ChainValid(digest, st.entries))
    decreases |ops|
  {
    FlatLogGrows(digest, st.entries, ops);
    if ops != [] {
      match ops[0]
      case Record(e, id, now) =>
        RecordingTracks(digest, st, e, id, now);
        RotationRefinesFlatLog(digest, Recording(digest, st, e, id, now), ops[1..]);
      case Reopen(maxLines) =>
        OpenedInStep(digest, st, maxLines);
        RotationRefinesFlatLog(digest, Opened(st.disk, maxLines), ops[1..]);
    }
  }

  /** A log found broken stays broken at the same entry, however much is recorded
      after it and however often it is reopened. */
  lemma {:induction false} BreakPersists(digest: Digest, st: LogState, ops: seq<LogOp>, k: int)
    requires Tracked(st) && st.disk.Some? && FirstBreak(digest, st.entries, k)
    ensures st.entries <= RunLog(digest, st, ops).entries
    ensures FirstBreak(digest, RunLog(digest, st, ops).entries, k)
  {
    RotationRefinesFlatLog(digest, st, ops);
    FlatLogGrows(digest, st.entries, ops);
    assert RunLog(digest, st, ops).entries[..k] == st.entries[..k];
  }

  /** With one segment size for the whole run, every archive is exactly full
      and the active file never exceeds it. */
  lemma {:induction false} SegmentsStayBounded(digest: Digest, st: LogState, ops: seq<LogOp>)
    requires Tracked(st) && st.disk.Some? && SegmentsBounded(st)
    requires forall i :: 0 <= i < |ops| && ops[i].Reopen? ==> ops[i].maxLines == st.maxLines
    ensures SegmentsBounded(RunLog(digest, st, ops)) && RunLog(digest, st, ops).maxLines == st.maxLines
    decreases |ops|
  {
    if ops != [] {
      match ops[0]
      case Record(e, id, now) =>
        RecordingTracks(digest, st, e, id, now);
        SegmentsStayBounded(digest, Recording(digest, st, e, id, now), ops[1..]);
      case Reopen(maxLines) =>
        OpenedInStep(digest, st, maxLines);
        SegmentsStayBounded(digest, Opened(st.disk, maxLines), ops[1..]);
    }
  }

  /** Both, for a log started on an empty directory. */
  lemma {:induction false} RunFromEmptyDirectory(digest: Digest, maxLines: int, ops: seq<LogOp>)
    ensures var end := RunLog(digest, Opened(Some(EMPTY_DISK), maxLines), ops);
            && end.disk.Some?
            && end.entries == OnDisk(end.disk.value) == FlatLog(digest, [], ops)
            && ChainValid(digest, end.entries)
            && ((forall i :: 0 <= i < |ops| && ops[i].Reopen? ==> ops[i].maxLines == maxLines)
                ==> SegmentsBounded(end) && end.maxLines == maxLines)
  {
    var st := Opened(Some(EMPTY_DISK), maxLines);
    assert OnDisk(EMPTY_DISK) == [];
    assert ChainValid(digest, st.entries);
    assert NumberedTo(EMPTY_DISK.archives.Keys, 0);
    RotationRefinesFlatLog(digest, st, ops);
    if forall i :: 0 <= i < |ops| && ops[i].Reopen? ==> ops[i].maxLines == maxLines {
      SegmentsStayBounded(digest, st, ops);
    }
  }

  /** A start over a damaged last line loses that entry only; what is left
      verifies and is again in step with the files. */
  lemma DamagedTailStillVerifies(digest: Digest, st: LogState, maxLines: int)
    requires InStep(digest, st) && st.disk.Some? && st.disk.value.active.Some?
    requires st.disk.value.active.value != []
    requires st.disk.value.active.value[|st.disk.value.active.value| - 1].Good?
    ensures var lines := st.disk.value.active.value;
            var damaged := st.disk.value.(active := Some(lines[..|lines| - 1] + [Damaged]));
            var reopened := Opened(Some(damaged), maxLines);
            && reopened.entries == st.entries[..|st.entries| - 1]
            && InStep(digest, reopened)
  {
    var lines := st.disk.value.active.value;
    var rest := lines[..|lines| - 1];
    assert (rest + [Damaged])[..|rest|] == rest;
    assert Parsed(rest + [Damaged]) == Parsed(rest);
    assert st.entries == ArchivedEntries(st.disk.value.archives, Ascending(st.disk.value.archives.Keys)) + Parsed(rest)
                         + [lines[|lines| - 1].value] by {
      AscendingElements(st.disk.value.archives.Keys);
    }
    ChainPrefix(digest, st.entries, |st.entries| - 1);
  }

  // ---- The class -----------------------------------------------------------

  /** The trail as callers see it: what was recorded and when. */
  datatype Recorded = Recorded(event: Event, at: int)

  function Trail(entries: seq<AuditEntry>): (t: seq<Recorded>)
    ensures |t| == |entries|
  {
    seq(|entries|, i requires 0 <= i < |entries| => Recorded(entries[i].body.event, entries[i].body.occurredAt))
  }

  lemma TrailAppend(entries: seq<AuditEntry>, e: AuditEntry)
    ensures Trail(entries + [e]) == Trail(entries) + [Recorded(e.body.event, e.body.occurredAt)]
  {
  }

  class AuditLog {
    const digest: Digest
    var entries: seq<AuditEntry>
    var maxLinesPerSegment: int
    var currentSegmentLines: nat
    var disk: Option<Disk>

    ghost function State(): LogState
      reads this
    {
      LogState(entries, maxLinesPerSegment, currentSegmentLines, disk)
    }

    /** In step with its files, which may or may not verify. */
    ghost predicate Valid()
      reads this
    {
      Tracked(State())
    }

    function Log(): seq<Recorded>
      reads this
    {
      Trail(entries)
    }

    constructor (digest: Digest, persistTo: Option<Disk>, maxLines: Option<int>)
      ensures this.digest == digest
      ensures State() == Opened(persistTo, if maxLines.Some? then maxLines.value else 5000)
      ensures Valid()
    {
      this.digest := digest;
      entries := [];
      maxLinesPerSegment := if maxLines.Some? then maxLines.value else 5000;
      currentSegmentLines := 0;
      disk := persistTo;
      new;
      if persistTo.Some? {
        var onDisk := persistTo.value;
        entries := RehydrateArchives(onDisk.archives);
        var current := RehydrateJsonLines(onDisk.active);
        entries := entries + current;
        currentSegmentLines := |LinesOf(onDisk.active)|;
      }
    }

    /** The constructor's loop over the archived segments. */
    static method RehydrateArchives(archives: map<nat, seq<Line<AuditEntry>>>) returns (entries: seq<AuditEntry>)
      ensures forall k :: k in Ascending(archives.Keys) ==> k in archives
      ensures entries == ArchivedEntries(archives, Ascending(archives.Keys))
    {
      var indices := ScanArchivedSegments(archives);
      entries := [];
      for i := 0 to |indices|
        invariant entries == ArchivedEntries(archives, indices[..i])
      {
        OneMoreSegment(archives, indices, i);
        var segment := RehydrateJsonLines(Some(archives[indices[i]]));
        entries := entries + segment;
      }
      assert indices[..|indices|] == indices;
    }

    method RotateIfNeeded()
      modifies this
      ensures State() == Rotated(old(State()))
    {
      if disk.None? || currentSegmentLines < maxLinesPerSegment {
        return;
      }
      if disk.value.active.None? {
        currentSegmentLines := 0;
        return;
      }
      var indices := ScanArchivedSegments(disk.value.archives);
      AscendingElements(disk.value.archives.Keys);
      var nextIndex := if |indices| > 0 then indices[|indices| - 1] + 1 else 1;
      disk := Some(Disk(disk.value.archives[nextIndex := disk.value.active.value], None));
      currentSegmentLines := 0;
    }

    /** Ok unless a refusal carries no reason. The entry's id is random. */
    method Record(event: Event, now: int) returns (ok: bool, ghost id: string)
      requires Valid()
      modifies this
      ensures Valid()
      ensures ok <==> !MissingReason(event)
      ensures State() == Recording(digest, old(State()), event, id, now)
      ensures Log() == if ok then old(Log()) + [Recorded(event, now)] else old(Log())
      ensures ok ==> |entries| > 0 && entries[|entries| - 1].body == Body(id, now, event, Head(old(entries)))
      ensures disk.Some? == old(disk.Some?)
      ensures ChainValid(digest, entries) <==> ChainValid(digest, old(entries))
    {
      var uuid: string := *;
      id := uuid;
      ok := !MissingReason(event);
      RecordingTracks(digest, State(), event, id, now);
      if !ok {
        return;
      }
      var full := NewEntry(digest, entries, event, uuid, now);
      EntryKeepsVerdict(digest, entries, full);
      TrailAppend(entries, full);
      ghost var grown := State().(entries := entries + [full]);
      entries := entries + [full];
      assert State() == grown;
      if disk.Some? {
        RotateIfNeeded();
        disk := Some(disk.value.(active := Appended(disk.value.active, full)));
        currentSegmentLines := currentSegmentLines + 1;
      }
    }

    /** Says of any log, tampered with or not, whether and where it breaks. */
    method Verify() returns (v: ChainVerification)
      ensures v.valid <==> ChainValid(digest, entries)
      ensures v.valid ==> v == ChainVerification(true, None, |entries|)
      ensures !v.valid ==>
                exists k :: FirstBreak(digest, entries, k)
                  && v == ChainVerification(false, Some(entries[k].body.id), |entries|)
    {
      v := VerifyAuditChain(digest, entries);
    }
  }
}
