/** One history line: how an interval is printed, how strictly it can be read
    back, and why a cut line can never be mistaken for a whole one
    (pkg/adapters/ebpf/history.go). */
module Codec {
  import opened Wrappers
  import opened Words
  import opened Text
  import opened Json
  import opened Float64

  datatype IntervalRecord = IntervalRecord(
    timestamp: string,
    totalBytes: u64,
    crossAZBytes: u64,
    totalCostUSD: real,
    execEvents: u64,
    uniqueFlows: nat)

  // ----- Printing and reading an object of scalar members -----

  datatype Member = Member(key: string, val: string)

  function KeyText(key: string): string { Quote(key) + [':'] }

  function Members(ms: seq<Member>): string
    requires ms != []
  {
    var first := KeyText(ms[0].key) + ms[0].val;
    if |ms| == 1 then first else first + [','] + Members(ms[1..])
  }

  function Object(ms: seq<Member>): string
    requires ms != []
  {
    ['{'] + Members(ms) + ['}']
  }

  predicate Letter(c: char) { 'a' <= c <= 'z' || c == '_' }

  predicate Word(s: string) { s != [] && forall i :: 0 <= i < |s| ==> Letter(s[i]) }

  ghost predicate WellFormed(ms: seq<Member>) {
    ms != [] && forall m :: m in ms ==> Word(m.key) && Scalar(m.val)
  }

  lemma RunMember(q: State, m: Member, st: seq<Frame>, c: char)
    requires q.mode == BeginKey || q.mode == BeginKeyOrEmpty
    requires q.stack == [InKey] + st && c in {',', '}'}
    requires Word(m.key) && Scalar(m.val)
    ensures Run(q, KeyText(m.key) + m.val + [c]) == AfterValue([InValue] + st, c)
  {
    var k := KeyText(m.key);
    RunQuoted(q, m.key);
    RunSnoc(q, Quote(m.key), ':');
    assert Run(q, k) == State(BeginValue, [InValue] + st);
    RunAppend(q, k, m.val);
    RunSnoc(q, k + m.val, c);
    ScalarEnds(m.val, [InValue] + st, c);
  }

  lemma {:induction false} RunMembers(q: State, ms: seq<Member>, st: seq<Frame>)
    requires q.mode == BeginKey || q.mode == BeginKeyOrEmpty
    requires q.stack == [InKey] + st
    requires WellFormed(ms)
    ensures Run(q, Members(ms) + ['}']) == State(EndValue, st)
    decreases |ms|
  {
    var first := KeyText(ms[0].key) + ms[0].val;
    if |ms| == 1 {
      RunMember(q, ms[0], st, '}');
    } else {
      RunMember(q, ms[0], st, ',');
      RunMembers(State(BeginKey, [InKey] + st), ms[1..], st);
      RunAppend(q, first + [','], Members(ms[1..]) + ['}']);
      assert Members(ms) + ['}'] == (first + [',']) + (Members(ms[1..]) + ['}']);
    }
  }

  /** An object read where a value may start leaves the enclosing frames alone. */
  lemma RunObject(q: State, ms: seq<Member>)
    requires q.mode == BeginValue || q.mode == BeginValueOrEmpty
    requires WellFormed(ms) && |q.stack| < MAX_DEPTH
    ensures Run(q, Object(ms)) == State(EndValue, q.stack)
  {
    var inner := State(BeginKeyOrEmpty, [InKey] + q.stack);
    RunOne(q, '{');
    assert Object(ms) == ['{'] + (Members(ms) + ['}']);
    RunAppend(q, ['{'], Members(ms) + ['}']);
    RunMembers(inner, ms, q.stack);
  }

  lemma {:induction false} MembersFlat(ms: seq<Member>)
    requires WellFormed(ms)
    ensures Flat(Members(ms)) && |Members(ms)| > 2
    ensures Members(ms)[0] == '"' && Letter(Members(ms)[1])
    decreases |ms|
  {
    ScalarFlat(ms[0].val);
    assert KeyText(ms[0].key)[1] == ms[0].key[0];
    if |ms| > 1 { MembersFlat(ms[1..]); }
  }

  /** No control character: a printed line holds neither a newline nor a return. */
  predicate Visible(s: string) { forall i :: 0 <= i < |s| ==> s[i] >= ' ' }

  lemma {:induction false} MembersVisible(ms: seq<Member>)
    requires WellFormed(ms)
    ensures Visible(Members(ms))
    decreases |ms|
  {
    var val := ms[0].val;
    assert ms[0] in ms && Visible(ms[0].key);
    assert Visible(val) by {
      if !Number(val) {
        var s :| Plain(s) && val == Quote(s);
      }
    }
    if |ms| > 1 { MembersVisible(ms[1..]); }
  }

  // ----- Cut lines -----

  /** The scanner is stuck or still inside something: no text that ends here is JSON. */
  predicate Unfinished(q: State) { q.mode.Bad? || q.stack != [] }

  lemma UnfinishedRejects(q: State)
    requires Unfinished(q)
    ensures !Accepts(q)
  {
  }

  /** A part of the line that stops before its closing brace never closes anything. */
  lemma RunOpenPart(q: State, ms: seq<Member>, k: nat)
    requires WellFormed(ms) && 0 < k < |Object(ms)|
    ensures Run(q, Object(ms)[..k]).mode.Bad? || |Run(q, Object(ms)[..k]).stack| == |Step(q, '{').stack|
  {
    MembersFlat(ms);
    var body := Members(ms)[..k - 1];
    assert Object(ms)[..k] == ['{'] + body;
    RunOne(q, '{');
    RunAppend(q, ['{'], body);
    FlatKeepsDepth(Step(q, '{'), body);
  }

  /** Where no value may start, a whole line jams the scanner. */
  lemma RunMisplacedObject(q: State, ms: seq<Member>)
    requires WellFormed(ms)
    requires q.mode != BeginValue && q.mode != BeginValueOrEmpty
    ensures Run(q, Object(ms)).mode.Bad?
  {
    MembersFlat(ms);
    var body := Members(ms) + ['}'];
    var q1 := Step(q, '{');
    assert Object(ms) == ['{'] + body;
    RunOne(q, '{');
    RunAppend(q, ['{'], body);
    if q1.mode.Bad? {
      RunBad(q1, body);
    } else {
      assert q1 == q && q.mode.Str? by { MisplacedBrace(q); }
      var q2 := Step(Step(q1, body[0]), body[1]);
      CloseQuote(q.stack);
      assert q2.mode.Bad?;
      assert body == ([body[0]] + [body[1]]) + body[2..];
      RunOne(q1, body[0]);
      RunSnoc(q1, [body[0]], body[1]);
      RunAppend(q1, [body[0]] + [body[1]], body[2..]);
      RunBad(q2, body[2..]);
    }
  }

  lemma MisplacedBrace(q: State)
    requires q.mode != BeginValue && q.mode != BeginValueOrEmpty
    ensures Step(q, '{').mode.Bad? || (q.mode.Str? && Step(q, '{') == q)
  {
  }

  /** Nothing glued to unfinished text, be it a whole line or a part of one, finishes it. */
  lemma GluedStaysUnfinished(q: State, ms: seq<Member>, k: nat)
    requires WellFormed(ms) && k <= |Object(ms)|
    requires Unfinished(q)
    ensures Unfinished(Run(q, Object(ms)[..k]))
  {
    if k == 0 {
    } else if k < |Object(ms)| {
      RunOpenPart(q, ms, k);
      BraceKeepsDepth(q);
      RunStaysBad(q, Object(ms)[..k]);
    } else {
      assert Object(ms)[..k] == Object(ms);
      if q.mode != BeginValue && q.mode != BeginValueOrEmpty {
        RunMisplacedObject(q, ms);
      } else if |q.stack| < MAX_DEPTH {
        RunObject(q, ms);
      } else {
        RunTooDeep(q, Object(ms));
      }
    }
  }

  lemma BraceKeepsDepth(q: State)
    ensures |Step(q, '{').stack| >= |q.stack|
  {
  }

  lemma RunStaysBad(q: State, s: string)
    ensures q.mode.Bad? ==> Run(q, s).mode.Bad?
  {
    if q.mode.Bad? { RunBad(q, s); }
  }

  lemma RunTooDeep(q: State, s: string)
    requires q.mode == BeginValue || q.mode == BeginValueOrEmpty
    requires |q.stack| >= MAX_DEPTH && s != [] && s[0] == '{'
    ensures Run(q, s).mode.Bad?
  {
    assert Step(q, '{').mode.Bad?;
    RunBad(Step(q, '{'), s[1..]);
  }

  /** From a fresh line, a nonempty proper part leaves the object open. */
  lemma ProperPartUnfinished(ms: seq<Member>, k: nat)
    requires WellFormed(ms) && 0 < k < |Object(ms)|
    ensures Unfinished(Run(START, Object(ms)[..k]))
  {
    RunOpenPart(START, ms, k);
  }

  /** After a whole line, one more character of another line jams the scanner. */
  lemma WholeThenMore(ms: seq<Member>, ns: seq<Member>, k: nat)
    requires WellFormed(ms) && WellFormed(ns) && 0 < k <= |Object(ns)|
    ensures Unfinished(Run(START, Object(ms) + Object(ns)[..k]))
  {
    var p := Object(ns)[..k];
    RunObject(START, ms);
    RunAppend(START, Object(ms), p);
    assert p[0] == '{';
    RunBad(Step(State(EndValue, []), p[0]), p[1..]);
  }

  // ----- Strict reader -----

  function Expect(lit: string, s: string): Option<string> {
    if |lit| <= |s| && s[..|lit|] == lit then Some(s[|lit|..]) else None
  }

  lemma ExpectHit(lit: string, rest: string)
    ensures Expect(lit, lit + rest) == Some(rest)
  {
    assert (lit + rest)[..|lit|] == lit && (lit + rest)[|lit|..] == rest;
  }

  /** The member values, if s holds exactly these keys in this order and then a brace. */
  function ReadMembers(keys: seq<string>, s: string): (r: Option<seq<string>>)
    requires keys != []
    ensures r.Some? ==> |r.value| == |keys|
    decreases |keys|
  {
    match Expect(KeyText(keys[0]), s)
    case None => None
    case Some(rest) =>
      var k := Span(rest, {',', '}'});
      if |keys| == 1 then
        if rest[k..] == ['}'] then Some([rest[..k]]) else None
      else if k < |rest| && rest[k] == ',' then
        match ReadMembers(keys[1..], rest[k + 1..])
        case None => None
        case Some(vals) => Some([rest[..k]] + vals)
      else None
  }

  function Keys(ms: seq<Member>): seq<string> { seq(|ms|, i requires 0 <= i < |ms| => ms[i].key) }
  function Vals(ms: seq<Member>): seq<string> { seq(|ms|, i requires 0 <= i < |ms| => ms[i].val) }

  lemma ReadOne(keys: seq<string>, val: string, tail: string)
    requires keys != [] && Flat(val) && ',' !in val
    requires tail != [] && tail[0] in {',', '}'}
    ensures |keys| == 1 && tail == ['}'] ==>
              ReadMembers(keys, KeyText(keys[0]) + (val + tail)) == Some([val])
    ensures |keys| > 1 && tail[0] == ',' && ReadMembers(keys[1..], tail[1..]).Some? ==>
              ReadMembers(keys, KeyText(keys[0]) + (val + tail))
              == Some([val] + ReadMembers(keys[1..], tail[1..]).value)
  {
    ExpectHit(KeyText(keys[0]), val + tail);
    SpanIs(val, tail, {',', '}'});
    assert (val + tail)[..|val|] == val && (val + tail)[|val|..] == tail;
    assert (val + tail)[|val| + 1..] == tail[1..];
  }

  lemma MembersTail(ms: seq<Member>)
    requires |ms| > 1
    ensures Members(ms) + ['}']
         == KeyText(ms[0].key) + (ms[0].val + ([','] + (Members(ms[1..]) + ['}'])))
  {
    var key, val, rest := KeyText(ms[0].key), ms[0].val, Members(ms[1..]);
    assert Members(ms) == (key + val) + [','] + rest;
    Regroup(key, val, [','], rest, ['}']);
  }

  lemma KeysValsTail(ms: seq<Member>)
    requires |ms| > 1
    ensures Keys(ms)[1..] == Keys(ms[1..]) && Vals(ms) == [ms[0].val] + Vals(ms[1..])
  {
  }

  lemma Regroup(a: string, b: string, c: string, d: string, e: string)
    ensures ((a + b) + c + d) + e == a + (b + (c + (d + e)))
  {
  }

  lemma {:induction false} ReadBack(ms: seq<Member>)
    requires WellFormed(ms)
    ensures ReadMembers(Keys(ms), Members(ms) + ['}']) == Some(Vals(ms))
    decreases |ms|
  {
    var key, val := KeyText(ms[0].key), ms[0].val;
    assert ms[0] in ms;
    ScalarFlat(val);
    if |ms| == 1 {
      assert Members(ms) + ['}'] == key + (val + ['}']);
      ReadOne(Keys(ms), val, ['}']);
      assert Vals(ms) == [val];
    } else {
      var tail := [','] + (Members(ms[1..]) + ['}']);
      MembersTail(ms);
      KeysValsTail(ms);
      ReadBack(ms[1..]);
      assert tail[1..] == Members(ms[1..]) + ['}'];
      ReadOne(Keys(ms), val, tail);
    }
  }

  // ----- The six-field interval line -----

  const INT_MAX: nat := 0x8000_0000_0000_0000

  const KEYS: seq<string> :=
    ["timestamp", "total_bytes", "cross_az_bytes", "total_cost_usd", "exec_events", "unique_flows"]

  function RecordVals(fp: Fp, r: IntervalRecord): seq<string> {
    [Quote(r.timestamp), Dec(r.totalBytes), Dec(r.crossAZBytes), fp.show(r.totalCostUSD),
     Dec(r.execEvents), Dec(r.uniqueFlows)]
  }

  function RecordMembers(fp: Fp, r: IntervalRecord): (ms: seq<Member>)
    ensures |ms| == |KEYS|
  {
    seq(|KEYS|, i requires 0 <= i < |KEYS| => Member(KEYS[i], RecordVals(fp, r)[i]))
  }

  /** json.Marshal of an interval. */
  function Marshal(fp: Fp, r: IntervalRecord): string { Object(RecordMembers(fp, r)) }

  /** The line as it stands in the file. */
  lemma MarshalText(fp: Fp, r: IntervalRecord)
    ensures var a: string := Quote("timestamp") + ":" + Quote(r.timestamp);
            var b: string := Quote("total_bytes") + ":" + Dec(r.totalBytes);
            var c: string := Quote("cross_az_bytes") + ":" + Dec(r.crossAZBytes);
            var d: string := Quote("total_cost_usd") + ":" + fp.show(r.totalCostUSD);
            var e: string := Quote("exec_events") + ":" + Dec(r.execEvents);
            var f: string := Quote("unique_flows") + ":" + Dec(r.uniqueFlows);
            var def: string := d + "," + (e + "," + f);
            var abcdef: string := a + "," + (b + "," + (c + "," + def));
            Marshal(fp, r) == "{" + abcdef + "}"
  {
    var ms := RecordMembers(fp, r);
    hide Dec;
    hide Quote;
    assert forall key :: KeyText(key) == Quote(key) + ":";
    SixMembers(ms);
    MembersOf(fp, r);
    assert Pair(ms[0]) == Quote("timestamp") + ":" + Quote(r.timestamp);
    assert Pair(ms[1]) == Quote("total_bytes") + ":" + Dec(r.totalBytes);
    assert Pair(ms[2]) == Quote("cross_az_bytes") + ":" + Dec(r.crossAZBytes);
    assert Pair(ms[3]) == Quote("total_cost_usd") + ":" + fp.show(r.totalCostUSD);
    assert Pair(ms[4]) == Quote("exec_events") + ":" + Dec(r.execEvents);
    assert Pair(ms[5]) == Quote("unique_flows") + ":" + Dec(r.uniqueFlows);
    hide Members;
    hide Pair;
    hide RecordMembers;
  }

  lemma MembersOf(fp: Fp, r: IntervalRecord)
    ensures var ms := RecordMembers(fp, r);
            && ms[0] == Member("timestamp", Quote(r.timestamp)) && ms[1] == Member("total_bytes", Dec(r.totalBytes))
            && ms[2] == Member("cross_az_bytes", Dec(r.crossAZBytes)) && ms[3] == Member("total_cost_usd", fp.show(r.totalCostUSD))
            && ms[4] == Member("exec_events", Dec(r.execEvents)) && ms[5] == Member("unique_flows", Dec(r.uniqueFlows))
  {
    hide Dec;
    hide Quote;
    var v := RecordVals(fp, r);
    assert v[0] == Quote(r.timestamp) && v[1] == Dec(r.totalBytes) && v[2] == Dec(r.crossAZBytes);
    assert v[3] == fp.show(r.totalCostUSD) && v[4] == Dec(r.execEvents) && v[5] == Dec(r.uniqueFlows);
  }

  lemma SixMembers(ms: seq<Member>)
    requires |ms| == 6
    ensures Members(ms)
         == Pair(ms[0]) + [','] + (Pair(ms[1]) + [','] + (Pair(ms[2]) + [','] + (Pair(ms[3]) + [','] + (Pair(ms[4]) + [','] + Pair(ms[5])))))
  {
    hide KeyText;
    MembersStep(ms, 0);
    MembersStep(ms, 1);
    MembersStep(ms, 2);
    MembersStep(ms, 3);
    MembersStep(ms, 4);
    assert ms[0..] == ms;
  }

  function Pair(m: Member): string { KeyText(m.key) + m.val }

  lemma MembersStep(ms: seq<Member>, i: nat)
    requires i + 1 < |ms|
    ensures Members(ms[i..]) == Pair(ms[i]) + [','] + Members(ms[i + 1..])
    ensures |ms| == i + 2 ==> Members(ms[i + 1..]) == Pair(ms[i + 1])
  {
    assert ms[i..][1..] == ms[i + 1..];
  }

  /** What time.RFC3339 can produce, and the empty stamp. */
  predicate Stamp(s: string) {
    forall i :: 0 <= i < |s| ==> IsDigit(s[i]) || s[i] in {'-', '+', ':', 'T', 'Z'}
  }

  /** The intervals the reporter hands over: a formatted time, a finite float, a Go int. */
  predicate Printable(fp: Fp, r: IntervalRecord) {
    Stamp(r.timestamp) && fp.isFloat(r.totalCostUSD) && r.uniqueFlows < INT_MAX
  }

  lemma {:induction false} DecRun(n: nat, st: seq<Frame>)
    ensures Run(State(BeginValue, st), Dec(n)) == State(if n == 0 then Zero else Int, st)
  {
    var q := State(BeginValue, st);
    if n < 10 {
      RunOne(q, DigitChar(n));
      assert n != 0 ==> NonZero(DigitChar(n)) && !Space(DigitChar(n));
    } else {
      DecRun(n / 10, st);
      RunSnoc(q, Dec(n / 10), DigitChar(n % 10));
    }
  }

  lemma DecNumber(n: nat)
    ensures Number(Dec(n))
  {
    forall st
      ensures NumberEnd(Run(State(BeginValue, st), Dec(n)).mode) && Run(State(BeginValue, st), Dec(n)).stack == st
    {
      DecRun(n, st);
    }
  }

  lemma MarshalWellFormed(fp: Fp, r: IntervalRecord)
    requires fp.Sound() && Printable(fp, r)
    ensures WellFormed(RecordMembers(fp, r))
    ensures Keys(RecordMembers(fp, r)) == KEYS && Vals(RecordMembers(fp, r)) == RecordVals(fp, r)
  {
    DecNumber(r.totalBytes);
    DecNumber(r.crossAZBytes);
    DecNumber(r.execEvents);
    DecNumber(r.uniqueFlows);
    assert Plain(r.timestamp) && Flat(r.timestamp) && ',' !in r.timestamp;
    assert forall i :: 0 <= i < |KEYS| ==> Word(KEYS[i]);
    assert forall i :: 0 <= i < |KEYS| ==> Scalar(RecordVals(fp, r)[i]);
  }

  function Unquote(s: string): Option<string> {
    if |s| >= 2 && s[0] == '"' && s[|s| - 1] == '"' then Some(s[1..|s| - 1]) else None
  }

  function ReadUint(s: string, limit: nat): Option<nat> {
    if s != [] && AllDigits(s) && Undec(s) < limit then Some(Undec(s)) else None
  }

  function OfVals(fp: Fp, v: seq<string>): Option<IntervalRecord>
    requires |v| == |KEYS|
  {
    match (Unquote(v[0]), ReadUint(v[1], U64), ReadUint(v[2], U64), fp.read(v[3]), ReadUint(v[4], U64), ReadUint(v[5], INT_MAX))
    case (Some(ts), Some(total), Some(cross), Some(cost), Some(execs), Some(flows)) =>
      Some(IntervalRecord(ts, total, cross, cost, execs, flows))
    case _ => None
  }

  /** The strict six-field decoder. */
  function Unmarshal(fp: Fp, s: string): Option<IntervalRecord> {
    if !Valid(s) then None else
    match Expect(['{'], s)
    case None => None
    case Some(body) => OfBody(fp, body)
  }

  function OfBody(fp: Fp, body: string): Option<IntervalRecord> {
    match ReadMembers(KEYS, body)
    case None => None
    case Some(v) => OfVals(fp, v)
  }

  /** What replay relies on: text that is not JSON is refused, and a printed
      interval is read back. Every conforming decoder of this struct does both. */
  ghost predicate Decodes(dec: string -> Option<IntervalRecord>, fp: Fp) {
    && (forall s :: !Valid(s) ==> dec(s) == None)
    && (forall r :: Printable(fp, r) ==> dec(Marshal(fp, r)) == Some(r))
  }

  lemma MarshalValid(fp: Fp, r: IntervalRecord)
    requires fp.Sound() && Printable(fp, r)
    ensures Valid(Marshal(fp, r))
  {
    MarshalWellFormed(fp, r);
    RunObject(START, RecordMembers(fp, r));
  }

  lemma ValsBack(fp: Fp, r: IntervalRecord)
    requires fp.Sound() && Printable(fp, r)
    ensures OfVals(fp, RecordVals(fp, r)) == Some(r)
  {
    UndecDec(r.totalBytes);
    UndecDec(r.crossAZBytes);
    UndecDec(r.execEvents);
    UndecDec(r.uniqueFlows);
    assert Quote(r.timestamp)[1..|Quote(r.timestamp)| - 1] == r.timestamp;
  }

  lemma BodyBack(fp: Fp, r: IntervalRecord)
    requires fp.Sound() && Printable(fp, r)
    ensures OfBody(fp, Members(RecordMembers(fp, r)) + ['}']) == Some(r)
  {
    MarshalWellFormed(fp, r);
    ReadBack(RecordMembers(fp, r));
    ValsBack(fp, r);
  }

  lemma RoundTrip(fp: Fp, r: IntervalRecord)
    requires fp.Sound() && Printable(fp, r)
    ensures Unmarshal(fp, Marshal(fp, r)) == Some(r)
  {
    MarshalValid(fp, r);
    var body := Members(RecordMembers(fp, r)) + ['}'];
    assert Marshal(fp, r) == ['{'] + body;
    ExpectHit(['{'], body);
    BodyBack(fp, r);
  }

  lemma StrictDecodes(fp: Fp)
    requires fp.Sound()
    ensures Decodes(s => Unmarshal(fp, s), fp)
  {
    forall r | Printable(fp, r) ensures Unmarshal(fp, Marshal(fp, r)) == Some(r) {
      RoundTrip(fp, r);
    }
  }

  lemma Pow10Twenty()
    ensures Pow(10, 20) > U64
  {
    assert Pow(10, 4) == 10000;
    assert Pow(10, 8) == 100000000;
    assert Pow(10, 12) == 1000000000000;
    assert Pow(10, 16) == 10000000000000000;
  }

  lemma DecShort(n: nat)
    requires n <= U64
    ensures |Dec(n)| <= 20
  {
    Pow10Twenty();
    DecLength(n, 20);
  }

  /** A line from the reporter is far shorter than the replay scanner's buffer. */
  lemma LineLength(fp: Fp, r: IntervalRecord)
    requires |r.timestamp| <= 64 && |fp.show(r.totalCostUSD)| <= 32 && r.uniqueFlows < INT_MAX
    ensures |Marshal(fp, r)| < 1000
  {
    DecShort(r.totalBytes);
    DecShort(r.crossAZBytes);
    DecShort(r.execEvents);
    DecShort(r.uniqueFlows);
    assert forall i :: 0 <= i < |KEYS| ==> |KEYS[i]| <= 14 && |RecordVals(fp, r)[i]| <= 70;
    MembersLength(RecordMembers(fp, r));
  }

  lemma {:induction false} MembersLength(ms: seq<Member>)
    requires ms != [] && forall m :: m in ms ==> |m.key| <= 14 && |m.val| <= 70
    ensures |Members(ms)| <= 88 * |ms|
    decreases |ms|
  {
    assert ms[0] in ms;
    if |ms| > 1 { MembersLength(ms[1..]); }
  }
}
