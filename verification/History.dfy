/** The history store: replay at start, one record per interval, cumulative
    totals and a bounded ring (pkg/adapters/ebpf/history.go). */
module History {
  import opened Wrappers
  import opened Words
  import opened Text
  import opened Float64
  import opened Codec
  import opened LogFile
  import opened Rounding
  import opened Snapshots

  const RING_CAP: nat := 360

  /** The in-memory part of a HistoryStore. */
  datatype Totals = Totals(since: string, bytes: u64, crossAZ: u64, cost: real, ring: seq<IntervalRecord>)

  const EMPTY := Totals("", 0, 0, 0.0, [])

  function Push(ring: seq<IntervalRecord>, r: IntervalRecord): seq<IntervalRecord> {
    var longer := ring + [r];
    if |longer| > RING_CAP then longer[1..] else longer
  }

  /** One interval counted, as Record and the replay loop both do. */
  function Absorb(fp: Fp, t: Totals, r: IntervalRecord): Totals {
    Totals(t.since, Add64(t.bytes, r.totalBytes), Add64(t.crossAZ, r.crossAZBytes),
           fp.Add(t.cost, r.totalCostUSD), Push(t.ring, r))
  }

  function Reread(fp: Fp, t: Totals, r: IntervalRecord): Totals {
    Absorb(fp, if t.since == "" then t.(since := r.timestamp) else t, r)
  }

  function RereadAll(fp: Fp, t: Totals, rs: seq<IntervalRecord>): Totals
    decreases |rs|
  {
    if rs == [] then t else RereadAll(fp, Reread(fp, t, rs[0]), rs[1..])
  }

  function AbsorbAll(fp: Fp, t: Totals, rs: seq<IntervalRecord>): Totals
    decreases |rs|
  {
    if rs == [] then t else AbsorbAll(fp, Absorb(fp, t, rs[0]), rs[1..])
  }

  /** The totals of a store opened on this file content. */
  function Opened(fp: Fp, dec: Decoder, content: string, now: string): Totals {
    var t := RereadAll(fp, EMPTY, Replay(dec, content));
    if t.since == "" then t.(since := now) else t
  }

  function RecordOf(s: Snapshot): IntervalRecord {
    IntervalRecord(s.timestamp, s.totalBytes, s.crossAZBytes, s.totalCostUSD, s.execEvents, s.flowCount)
  }

  /** The disk file; appends may land in part. */
  class File {
    var content: string

    constructor (initial: string)
      ensures content == initial
    {
      content := initial;
    }

    method Append(text: string, landed: nat)
      modifies this
      ensures content == old(content) + if landed < |text| then text[..landed] else text
    {
      content := content + if landed < |text| then text[..landed] else text;
    }
  }

  datatype Summary = Summary(since: string, bytes: u64, crossAZ: u64, cost: real, intervals: seq<IntervalRecord>)

  class HistoryStore {
    const fp: Fp
    var file: File?
    var ring: seq<IntervalRecord>
    var cumBytes: u64
    var cumCrossAZ: u64
    var cumCost: real
    var since: string

    ghost function View(): Totals
      reads this
    {
      Totals(since, cumBytes, cumCrossAZ, cumCost, ring)
    }

    constructor Zero(fp: Fp)
      ensures View() == EMPTY && file == null && this.fp == fp
    {
      this.fp := fp;
      file := null;
      ring, cumBytes, cumCrossAZ, cumCost, since := [], 0, 0, 0.0, "";
    }

    /** Opens the log: `readable` and `writable` say whether the two opens succeed. */
    static method NewHistoryStore(fp: Fp, dec: Decoder, disk: File, readable: bool, writable: bool, now: string)
      returns (r: Result<HistoryStore, string>)
      ensures r.Ok? <==> writable
      ensures r.Ok? ==> fresh(r.value) && r.value.file == disk && r.value.fp == fp
      ensures r.Ok? ==> r.value.View() == Opened(fp, dec, if readable then disk.content else [], now)
    {
      hide Replay;
      var h := new HistoryStore.Zero(fp);
      if readable {
        h.Scan(dec, disk.content);
      } else {
        NothingRead(dec);
      }
      if !writable {
        return Err("open history file");
      }
      h.file := disk;
      if h.since == "" {
        h.since := now;
      }
      return Ok(h);
    }

    /** The replay loop. */
    method Scan(dec: Decoder, content: string)
      modifies this
      ensures View() == RereadAll(fp, old(View()), Replay(dec, content)) && file == old(file)
    {
      hide Reread;
      var lines := Tokens(Split(content, '\n'));
      var i := 0;
      while i < |lines| && !TooLong(lines[i])
        invariant i <= |lines| && file == old(file)
        invariant RereadAll(fp, View(), Decoded(dec, lines[i..])) == RereadAll(fp, old(View()), Decoded(dec, lines))
      {
        DecodedStep(dec, lines, i);
        match dec(DropReturn(lines[i])) {
          case None =>
          case Some(rec) => Replayed(rec);
        }
        i := i + 1;
      }
    }

    method Replayed(rec: IntervalRecord)
      modifies this
      ensures View() == Reread(fp, old(View()), rec) && file == old(file)
    {
      if since == "" {
        since := rec.timestamp;
      }
      Count(rec);
    }

    method Count(rec: IntervalRecord)
      modifies this
      ensures View() == Absorb(fp, old(View()), rec) && file == old(file)
    {
      cumBytes := Add64(cumBytes, rec.totalBytes);
      cumCrossAZ := Add64(cumCrossAZ, rec.crossAZBytes);
      cumCost := fp.Add(cumCost, rec.totalCostUSD);
      ring := ring + [rec];
      if |ring| > RING_CAP {
        ring := ring[1..];
      }
    }

    /** `landed` is how much of the line reaches the disk; the store never looks at it. */
    method Record(snap: Snapshot, landed: nat)
      modifies this, file
      ensures View() == Absorb(fp, old(View()), RecordOf(snap))
      ensures file == old(file)
      ensures file != null ==> file.content == old(file.content) + Landing(fp, Write(RecordOf(snap), landed))
      ensures cumBytes == Add64(old(cumBytes), snap.totalBytes) && cumCrossAZ == Add64(old(cumCrossAZ), snap.crossAZBytes)
      ensures cumCost == fp.Add(old(cumCost), snap.totalCostUSD) && since == old(since)
      ensures var line := IntervalRecord(timestamp := snap.timestamp, totalBytes := snap.totalBytes,
                                         crossAZBytes := snap.crossAZBytes, totalCostUSD := snap.totalCostUSD,
                                         execEvents := snap.execEvents, uniqueFlows := snap.flowCount);
              && ring == (if |old(ring)| < 360 then old(ring) else old(ring)[1..]) + [line]
              && (file != null && landed > |Marshal(fp, line)| ==> file.content == old(file.content) + Marshal(fp, line) + "\n")
    {
      var rec := RecordOf(snap);
      if file != null {
        file.Append(Marshal(fp, rec) + ['\n'], landed);
      }
      Count(rec);
    }

    /** A copy: later records do not show through it. `marshalled` says whether encoding succeeds. */
    method HistoryJSON(marshalled: bool) returns (r: Result<Summary, string>)
      ensures r == if marshalled then Ok(Summary(View().since, View().bytes, View().crossAZ, View().cost, View().ring))
                   else Err("failed to marshal history")
    {
      var summary := Summary(since, cumBytes, cumCrossAZ, cumCost, ring);
      if !marshalled { return Err("failed to marshal history"); }
      return Ok(summary);
    }
  }

  lemma DecodedStep(dec: Decoder, lines: seq<string>, i: nat)
    requires i < |lines| && !TooLong(lines[i])
    ensures match dec(DropReturn(lines[i]))
            case None => Decoded(dec, lines[i..]) == Decoded(dec, lines[i + 1..])
            case Some(r) => && Decoded(dec, lines[i..]) != []
                            && Decoded(dec, lines[i..])[0] == r
                            && Decoded(dec, lines[i..])[1..] == Decoded(dec, lines[i + 1..])
  {
    assert lines[i..][1..] == lines[i + 1..];
  }

  // ----- Folds -----

  lemma {:induction false} AbsorbAllAppend(fp: Fp, t: Totals, a: seq<IntervalRecord>, b: seq<IntervalRecord>)
    ensures AbsorbAll(fp, t, a + b) == AbsorbAll(fp, AbsorbAll(fp, t, a), b)
    decreases |a|
  {
    if a == [] {
      assert a + b == b;
    } else {
      assert (a + b)[1..] == a[1..] + b;
      AbsorbAllAppend(fp, Absorb(fp, t, a[0]), a[1..], b);
    }
  }

  function Records(snaps: seq<Snapshot>): seq<IntervalRecord> {
    seq(|snaps|, i requires 0 <= i < |snaps| => RecordOf(snaps[i]))
  }

  lemma RecordsSnoc(snaps: seq<Snapshot>)
    requires snaps != []
    ensures Records(snaps) == Records(Front(snaps)) + [RecordOf(Last(snaps))]
  {
  }

  lemma AbsorbOne(fp: Fp, t: Totals, r: IntervalRecord)
    ensures AbsorbAll(fp, t, [r]) == Absorb(fp, t, r)
  {
    assert [r][1..] == [];
  }

  lemma NothingAbsorbed(fp: Fp, t: Totals)
    ensures AbsorbAll(fp, t, Records([])) == t
  {
  }

  lemma AbsorbNext(fp: Fp, t: Totals, snaps: seq<Snapshot>, snap: Snapshot)
    ensures AbsorbAll(fp, t, Records(snaps + [snap])) == Absorb(fp, AbsorbAll(fp, t, Records(snaps)), RecordOf(snap))
  {
    hide Absorb;
    assert Front(snaps + [snap]) == snaps && Last(snaps + [snap]) == snap;
    RecordsSnoc(snaps + [snap]);
    AbsorbAllAppend(fp, t, Records(snaps), [RecordOf(snap)]);
    AbsorbOne(fp, AbsorbAll(fp, t, Records(snaps)), RecordOf(snap));
  }

  /** First nonempty time stamp, or the default. */
  function FirstStamp(rs: seq<IntervalRecord>, otherwise: string): string
    decreases |rs|
  {
    if rs == [] then otherwise else if rs[0].timestamp != "" then rs[0].timestamp else FirstStamp(rs[1..], otherwise)
  }

  /** Replaying is absorbing, except that it also finds `since`. */
  lemma {:induction false} RereadIsAbsorb(fp: Fp, t: Totals, rs: seq<IntervalRecord>)
    ensures RereadAll(fp, t, rs)
         == AbsorbAll(fp, t, rs).(since := if t.since != "" then t.since else FirstStamp(rs, ""))
    decreases |rs|
  {
    if rs != [] {
      var t' := Reread(fp, t, rs[0]);
      RereadIsAbsorb(fp, t', rs[1..]);
      AbsorbIgnoresSince(fp, Absorb(fp, t, rs[0]), t'.since, rs[1..]);
    }
  }

  lemma {:induction false} AbsorbIgnoresSince(fp: Fp, t: Totals, since: string, rs: seq<IntervalRecord>)
    ensures AbsorbAll(fp, t.(since := since), rs) == AbsorbAll(fp, t, rs).(since := since)
    ensures AbsorbAll(fp, t, rs).since == t.since
    decreases |rs|
  {
    if rs != [] { AbsorbIgnoresSince(fp, Absorb(fp, t, rs[0]), since, rs[1..]); }
  }

  lemma OpenedIs(fp: Fp, dec: Decoder, content: string, now: string)
    ensures Opened(fp, dec, content, now)
         == AbsorbAll(fp, EMPTY, Replay(dec, content)).(since := FirstStamp(Replay(dec, content), now))
  {
    RereadIsAbsorb(fp, EMPTY, Replay(dec, content));
    StampDefault(Replay(dec, content), now);
  }

  lemma {:induction false} StampDefault(rs: seq<IntervalRecord>, now: string)
    ensures FirstStamp(rs, now) == if FirstStamp(rs, "") == "" then now else FirstStamp(rs, "")
    decreases |rs|
  {
    if rs != [] { StampDefault(rs[1..], now); }
  }

  /** `since` is the first time stamp read back, or the time of the start if there is none. */
  lemma OpenedSince(fp: Fp, dec: Decoder, content: string, now: string)
    ensures var rs, since := Replay(dec, content), Opened(fp, dec, content, now).since;
            if forall r :: r in rs ==> r.timestamp == "" then since == now
            else exists i :: && 0 <= i < |rs| && rs[i].timestamp == since && since != ""
                             && forall j :: 0 <= j < i ==> rs[j].timestamp == ""
  {
    OpenedIs(fp, dec, content, now);
    FirstStampIs(Replay(dec, content), now);
    hide Replay;
  }

  lemma {:induction false} FirstStampIs(rs: seq<IntervalRecord>, otherwise: string)
    ensures var since := FirstStamp(rs, otherwise);
            if forall r :: r in rs ==> r.timestamp == "" then since == otherwise
            else exists i :: && 0 <= i < |rs| && rs[i].timestamp == since && since != ""
                             && forall j :: 0 <= j < i ==> rs[j].timestamp == ""
    decreases |rs|
  {
    if rs != [] && rs[0].timestamp == "" {
      FirstStampIs(rs[1..], otherwise);
      if r :| r in rs && r.timestamp != "" {
        assert r in rs[1..];
        var i :| && 0 <= i < |rs[1..]| && rs[1..][i].timestamp == FirstStamp(rs, otherwise) && FirstStamp(rs, otherwise) != ""
                 && forall j :: 0 <= j < i ==> rs[1..][j].timestamp == "";
        assert rs[i + 1].timestamp == FirstStamp(rs, otherwise);
        forall j | 0 <= j < i + 1 ensures rs[j].timestamp == "" {
          if j > 0 { assert rs[1..][j - 1].timestamp == ""; }
        }
      } else {
        assert forall r :: r in rs[1..] ==> r in rs;
      }
    }
  }

  lemma {:induction false} StampAppend(a: seq<IntervalRecord>, b: seq<IntervalRecord>, now: string)
    ensures FirstStamp(a + b, now) == FirstStamp(a, FirstStamp(b, now))
    decreases |a|
  {
    if a == [] {
      assert a + b == b;
    } else {
      assert (a + b)[1..] == a[1..] + b;
      StampAppend(a[1..], b, now);
    }
  }

  function SumOf(rs: seq<IntervalRecord>, f: IntervalRecord -> nat): nat
    decreases |rs|
  {
    if rs == [] then 0 else f(rs[0]) + SumOf(rs[1..], f)
  }

  function BytesIn(r: IntervalRecord): nat { r.totalBytes }
  function CrossAZIn(r: IntervalRecord): nat { r.crossAZBytes }

  /** The byte totals are the sums over all intervals, modulo 2^64. */
  lemma {:induction false} IntervalSums(fp: Fp, t: Totals, rs: seq<IntervalRecord>)
    ensures AbsorbAll(fp, t, rs).bytes == (t.bytes + SumOf(rs, BytesIn)) % U64
    ensures AbsorbAll(fp, t, rs).crossAZ == (t.crossAZ + SumOf(rs, CrossAZIn)) % U64
    decreases |rs|
  {
    hide Push;
    if rs != [] {
      IntervalSums(fp, Absorb(fp, t, rs[0]), rs[1..]);
      AddMod(t.bytes + BytesIn(rs[0]), SumOf(rs[1..], BytesIn));
      AddMod(t.crossAZ + CrossAZIn(rs[0]), SumOf(rs[1..], CrossAZIn));
    }
  }

  lemma {:induction false} SumAppend(a: seq<IntervalRecord>, b: seq<IntervalRecord>, f: IntervalRecord -> nat)
    ensures SumOf(a + b, f) == SumOf(a, f) + SumOf(b, f)
    decreases |a|
  {
    if a == [] {
      assert a + b == b;
    } else {
      assert (a + b)[1..] == a[1..] + b;
      SumAppend(a[1..], b, f);
    }
  }

  /** A sum does not depend on the order. */
  lemma {:induction false} SumPermuted(a: seq<IntervalRecord>, b: seq<IntervalRecord>, f: IntervalRecord -> nat)
    requires multiset(a) == multiset(b)
    ensures SumOf(a, f) == SumOf(b, f)
    decreases |a|
  {
    if a == [] {
      assert |multiset(b)| == 0;
    } else {
      var r := a[0];
      assert r in multiset(a) && r in multiset(b);
      var i :| 0 <= i < |b| && b[i] == r;
      RestPermuted(a, b, i);
      SumPermuted(a[1..], b[..i] + b[i + 1..], f);
      SumTakeOut(b, i, f);
    }
  }

  lemma RestPermuted(a: seq<IntervalRecord>, b: seq<IntervalRecord>, i: nat)
    requires a != [] && i < |b| && b[i] == a[0] && multiset(a) == multiset(b)
    ensures multiset(a[1..]) == multiset(b[..i] + b[i + 1..])
  {
    var x, tail, l, r := a[0], a[1..], b[..i], b[i + 1..];
    assert a == [x] + tail && b == l + ([x] + r);
    assert multiset(a) == multiset{x} + multiset(tail);
    assert multiset(b) == multiset(l) + multiset([x] + r) == multiset(l) + (multiset{x} + multiset(r));
    Cancel(x, multiset(tail), multiset(l), multiset(r));
  }

  lemma Cancel(x: IntervalRecord, a: multiset<IntervalRecord>, l: multiset<IntervalRecord>, r: multiset<IntervalRecord>)
    requires multiset{x} + a == l + (multiset{x} + r)
    ensures a == l + r
  {
    assert a == (multiset{x} + a) - multiset{x};
    assert l + r == (l + (multiset{x} + r)) - multiset{x};
  }

  lemma SumTakeOut(b: seq<IntervalRecord>, i: nat, f: IntervalRecord -> nat)
    requires i < |b|
    ensures SumOf(b, f) == f(b[i]) + SumOf(b[..i] + b[i + 1..], f)
  {
    var tail := b[i..];
    assert b == b[..i] + tail && tail[0] == b[i] && tail[1..] == b[i + 1..];
    SumAppend(b[..i], tail, f);
    SumAppend(b[..i], b[i + 1..], f);
  }

  function CostOf(rs: seq<IntervalRecord>): real
    decreases |rs|
  {
    if rs == [] then 0.0 else CostOf(Front(rs)) + Last(rs).totalCostUSD
  }

  /** The format holds each nonzero cost and their sum, with n roundings to spare. */
  ghost predicate CostsFit(f: Format, rs: seq<IntervalRecord>, n: nat) {
    && (forall r :: r in rs ==> r.totalCostUSD == 0.0 || f.lo <= r.totalCostUSD * RealPow(1.0 - f.u, n))
    && CostOf(rs) * RealPow(1.0 + f.u, n) <= f.hi
  }

  lemma CostsNonneg(rs: seq<IntervalRecord>)
    requires forall r :: r in rs ==> r.totalCostUSD >= 0.0
    ensures CostOf(rs) >= 0.0
    decreases |rs|
  {
    if rs != [] {
      assert Last(rs) in rs;
      CostsNonneg(Front(rs));
    }
  }

  lemma CostsFitFront(f: Format, rs: seq<IntervalRecord>, n: nat)
    requires rs != [] && CostsFit(f, rs, n) && 0.0 <= f.u <= 1.0
    requires forall r :: r in rs ==> r.totalCostUSD >= 0.0
    ensures CostsFit(f, Front(rs), n)
  {
    assert Last(rs) in rs;
    hide RealPow;
    PowOne(f.u, n);
    MulLe(CostOf(Front(rs)), CostOf(rs), RealPow(1.0 + f.u, n));
  }

  /** A sum of costs that fit is safe. */
  lemma {:induction false} CostsSafe(f: Format, rs: seq<IntervalRecord>, n: nat)
    requires CostsFit(f, rs, n) && 0.0 <= f.u <= 1.0
    requires forall r :: r in rs ==> r.totalCostUSD >= 0.0
    ensures Safe(f, CostOf(rs), n)
    decreases |rs|
  {
    if rs != [] {
      var a, b := CostOf(Front(rs)), Last(rs).totalCostUSD;
      assert Last(rs) in rs;
      CostsFitFront(f, rs, n);
      CostsSafe(f, Front(rs), n);
      CostsNonneg(Front(rs));
      hide Safe;
      PowOne(f.u, n);
      hide RealPow;
      SafeSum(f, a, b, n);
    }
  }

  lemma SafeSum(f: Format, a: real, b: real, n: nat)
    requires Safe(f, a, n) && a >= 0.0 && b >= 0.0 && RealPow(1.0 - f.u, n) >= 0.0
    requires b == 0.0 || f.lo <= b * RealPow(1.0 - f.u, n)
    requires (a + b) * RealPow(1.0 + f.u, n) <= f.hi
    ensures Safe(f, a + b, n)
  {
    hide RealPow;
    MulLe(a, a + b, RealPow(1.0 - f.u, n));
    MulLe(b, a + b, RealPow(1.0 - f.u, n));
  }

  lemma {:induction false} CumulativeNear(fp: Fp, f: Format, rs: seq<IntervalRecord>, n: nat)
    requires Rounds(fp, f) && forall r :: r in rs ==> r.totalCostUSD >= 0.0
    requires |rs| <= n && CostsFit(f, rs, n)
    ensures Near(AbsorbAll(fp, EMPTY, rs).cost, CostOf(rs), f.u, |rs|)
    decreases |rs|
  {
    assert 0.0 <= f.u <= 1.0;
    hide Near;
    hide Rounds;
    hide Safe;
    hide CostsFit;
    if rs == [] {
      ExactNear(0.0, f.u);
    } else {
      var r, k := Last(rs), |rs| - 1;
      assert r in rs;
      CostsFitFront(f, rs, n);
      CumulativeNear(fp, f, Front(rs), n);
      assert rs == Front(rs) + [r];
      AbsorbAllAppend(fp, EMPTY, Front(rs), [r]);
      AbsorbOne(fp, AbsorbAll(fp, EMPTY, Front(rs)), r);
      ExactNear(r.totalCostUSD, f.u);
      WidenNear(r.totalCostUSD, r.totalCostUSD, f.u, 0, k);
      var before := AbsorbAll(fp, EMPTY, Front(rs)).cost;
      AddNear(before, r.totalCostUSD, CostOf(Front(rs)), r.totalCostUSD, f.u, k);
      CostsSafe(f, rs, n);
      CostsNonneg(rs);
      RoundNear(fp, f, before + r.totalCostUSD, CostOf(rs), k, n);
    }
  }

  /** The cumulative cost of n intervals is within (1+u)^n - 1 of the sum of their costs, relatively. */
  lemma CumulativeCostBound(fp: Fp, f: Format, rs: seq<IntervalRecord>)
    requires Rounds(fp, f) && CostsFit(f, rs, |rs|) && forall r :: r in rs ==> r.totalCostUSD >= 0.0
    ensures RelativeError(AbsorbAll(fp, EMPTY, rs).cost, CostOf(rs), RealPow(1.0 + f.u, |rs|) - 1.0)
  {
    assert 0.0 <= f.u <= 1.0;
    hide Near;
    hide Rounds;
    hide RelativeError;
    hide RealPow;
    hide Safe;
    hide CostOf;
    hide AbsorbAll;
    CumulativeNear(fp, f, rs, |rs|);
    CostsNonneg(rs);
    NearError(AbsorbAll(fp, EMPTY, rs).cost, CostOf(rs), f.u, |rs|);
  }

  // ----- The ring -----

  function LastOnes(rs: seq<IntervalRecord>): seq<IntervalRecord> {
    if |rs| <= RING_CAP then rs else rs[|rs| - RING_CAP..]
  }

  /** The ring is the last min(360, n) of all intervals counted. */
  lemma {:induction false} RingIsLastOnes(fp: Fp, t: Totals, before: seq<IntervalRecord>, rs: seq<IntervalRecord>)
    requires t.ring == LastOnes(before)
    ensures AbsorbAll(fp, t, rs).ring == LastOnes(before + rs)
    decreases |rs|
  {
    if rs == [] {
      assert before + rs == before;
    } else {
      assert Push(t.ring, rs[0]) == LastOnes(before + [rs[0]]);
      RingIsLastOnes(fp, Absorb(fp, t, rs[0]), before + [rs[0]], rs[1..]);
      assert before + [rs[0]] + rs[1..] == before + rs;
    }
  }

  // ----- Restart -----

  /** Main result: a restart refines continued running. Every total, and the cost with
      its rounding, is the same left fold; `since` agrees exactly when the file already
      held a stamp at the first start, or the stamps happen to coincide. */
  lemma RestartRefines(fp: Fp, dec: Decoder, content: string, started: string, rs: seq<IntervalRecord>, restarted: string)
    requires fp.Sound() && Decodes(dec, fp) && Intact(content) && Short(fp, rs)
    ensures var running := AbsorbAll(fp, Opened(fp, dec, content, started), rs);
            var again := Opened(fp, dec, Appended(fp, content, Full(fp, rs)), restarted);
            && again == running.(since := again.since)
            && (again.since == running.since <==>
                  FirstStamp(Replay(dec, content), "") != "" || FirstStamp(rs, restarted) == started)
  {
    hide Replay;
    var old', file := Replay(dec, content), Appended(fp, content, Full(fp, rs));
    ReplayFull(fp, dec, content, rs);
    OpenedIs(fp, dec, content, started);
    OpenedIs(fp, dec, file, restarted);
    AbsorbAllAppend(fp, EMPTY, old', rs);
    AbsorbIgnoresSince(fp, AbsorbAll(fp, EMPTY, old'), FirstStamp(old', started), rs);
    StampAppend(old', rs, restarted);
    StampDefault(old', FirstStamp(rs, restarted));
    StampDefault(old', started);
  }

  /** Whatever was cut, a restart counts exactly the surviving intervals. */
  lemma RestartCountsSurvivors(fp: Fp, dec: Decoder, content: string, ws: seq<Write>, now: string)
    requires fp.Sound() && Decodes(dec, fp) && Closed(content) && AllPrintable(fp, ws)
    ensures var kept := Survivors(Tallied(fp, Start(dec, content), ws));
            Opened(fp, dec, Appended(fp, content, ws), now)
            == AbsorbAll(fp, EMPTY, kept).(since := FirstStamp(kept, now))
  {
    ReplayReadsSurvivors(fp, dec, content, ws);
    OpenedIs(fp, dec, Appended(fp, content, ws), now);
  }
}
