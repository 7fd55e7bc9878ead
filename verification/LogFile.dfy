/** The append-only history file as bytes: what a scanner reads back after any
    sequence of complete and cut writes (pkg/adapters/ebpf/history.go). */
module LogFile {
  import opened Wrappers
  import opened Text
  import opened Json
  import opened Float64
  import opened Codec

  type Decoder = string -> Option<IntervalRecord>

  /** Longest line, without its newline, that the replay scanner can hold is one less. */
  const MAX_TOKEN: nat := 1024 * 1024

  predicate TooLong(line: string) { |line| >= MAX_TOKEN }

  function DropReturn(line: string): string {
    if line != [] && Last(line) == '\r' then Front(line) else line
  }

  /** The tokens of bufio.ScanLines: a last piece counts only if it is not empty. */
  function Tokens(parts: seq<string>): seq<string>
    requires parts != []
  {
    if Last(parts) == [] then Front(parts) else parts
  }

  function Entry(dec: Decoder, line: string): seq<IntervalRecord> {
    match dec(DropReturn(line)) case None => [] case Some(r) => [r]
  }

  /** Lines that do not decode are skipped; a line too long ends the scan. */
  function Decoded(dec: Decoder, lines: seq<string>): seq<IntervalRecord> {
    if lines == [] || TooLong(lines[0]) then [] else Entry(dec, lines[0]) + Decoded(dec, lines[1..])
  }

  predicate Stops(lines: seq<string>) { exists i :: 0 <= i < |lines| && TooLong(lines[i]) }

  /** The intervals a restart reads back. */
  function Replay(dec: Decoder, content: string): seq<IntervalRecord> {
    Decoded(dec, Tokens(Split(content, '\n')))
  }

  lemma {:induction false} DecodedSnoc(dec: Decoder, lines: seq<string>, l: string)
    ensures Decoded(dec, lines + [l])
         == if Stops(lines) || TooLong(l) then Decoded(dec, lines) else Decoded(dec, lines) + Entry(dec, l)
    decreases |lines|
  {
    if lines == [] {
      assert [l][1..] == [];
    } else {
      assert (lines + [l])[1..] == lines[1..] + [l];
      if !TooLong(lines[0]) {
        DecodedSnoc(dec, lines[1..], l);
        StopsTail(lines);
      }
    }
  }

  lemma StopsTail(lines: seq<string>)
    requires lines != [] && !TooLong(lines[0])
    ensures Stops(lines) <==> Stops(lines[1..])
  {
    if Stops(lines) {
      var i :| 0 <= i < |lines| && TooLong(lines[i]);
      assert TooLong(lines[1..][i - 1]);
    }
    if Stops(lines[1..]) {
      var i :| 0 <= i < |lines[1..]| && TooLong(lines[1..][i]);
      assert TooLong(lines[i + 1]);
    }
  }

  // ----- Replay line by line -----

  lemma {:induction false} DecodedAppend(dec: Decoder, a: seq<string>, b: seq<string>)
    requires !Stops(a)
    ensures Decoded(dec, a + b) == Decoded(dec, a) + Decoded(dec, b)
    decreases |a|
  {
    if a == [] {
      assert a + b == b;
    } else {
      assert (a + b)[1..] == a[1..] + b && !TooLong(a[0]);
      StopsTail(a);
      DecodedAppend(dec, a[1..], b);
    }
  }

  /** A closed part of the file with no overlong line is read apart from what follows it. */
  lemma ReplayConcat(dec: Decoder, a: string, b: string)
    requires Closed(a) && !Stops(Split(a, '\n'))
    ensures Replay(dec, a + b) == Replay(dec, a) + Replay(dec, b)
  {
    hide Split;
    hide Replay;
    if a == [] {
      NothingRead(dec);
      assert a + b == b;
    } else {
      ClosedShape(a, b);
      ClosedTokens(Front(a));
      BodyConcat(dec, Front(a), b);
    }
  }

  lemma NothingRead(dec: Decoder)
    ensures Replay(dec, []) == []
  {
    SplitNoSep([], '\n');
  }

  lemma ClosedShape(a: string, b: string)
    requires a != [] && Closed(a)
    ensures a == Front(a) + ['\n'] + [] && a + b == Front(a) + ['\n'] + b
  {
  }

  lemma BodyConcat(dec: Decoder, body: string, b: string)
    requires !Stops(Split(body, '\n') + [[]])
    ensures Replay(dec, body + ['\n'] + b) == Replay(dec, body + ['\n'] + []) + Replay(dec, b)
  {
    var lines, more := Split(body, '\n'), Tokens(Split(b, '\n'));
    ClosedSplit(body, b);
    ClosedTokens(body);
    hide Split;
    hide Tokens;
    hide Decoded;
    StopsPart(lines, [[]]);
    DecodedAppend(dec, lines, more);
  }

  lemma ClosedTokens(body: string)
    ensures Split(body + ['\n'] + [], '\n') == Split(body, '\n') + [[]]
    ensures Tokens(Split(body + ['\n'] + [], '\n')) == Split(body, '\n')
  {
    ClosedSplit(body, []);
    SplitNoSep([], '\n');
  }

  lemma ClosedSplit(body: string, b: string)
    ensures Split(body + ['\n'] + b, '\n') == Split(body, '\n') + Split(b, '\n')
    ensures Tokens(Split(body + ['\n'] + b, '\n')) == Split(body, '\n') + Tokens(Split(b, '\n'))
  {
    SplitAtSep(body, '\n', b);
    var lines, more := Split(body, '\n'), Split(b, '\n');
    hide Split;
    assert Last(lines + more) == Last(more) && Front(lines + more) == lines + Front(more);
  }

  lemma StopsPart(a: seq<string>, b: seq<string>)
    ensures Stops(a) ==> Stops(a + b)
  {
    if Stops(a) {
      var i :| 0 <= i < |a| && TooLong(a[i]);
      assert (a + b)[i] == a[i];
    }
  }

  /** One line below 2^20 characters yields what its text decodes to, with or without its
      newline, and with or without a return before it; one that does not decode yields nothing. */
  lemma ReplayLine(dec: Decoder, text: string)
    requires '\n' !in text && |text| + 1 < 1048576 && (text == [] || text[|text| - 1] != '\r')
    ensures var rs := if dec(text).Some? then [dec(text).value] else [];
            && Replay(dec, text + "\n") == rs
            && Replay(dec, text + "\r\n") == rs
            && (text != [] ==> Replay(dec, text) == rs)
  {
    assert text + "\n" == text + ['\n'] + [] && text + "\r\n" == (text + "\r") + ['\n'] + [];
    OneLine(dec, text);
    OneLine(dec, text + "\r");
    assert Front(text + "\r") == text;
    if text != [] {
      SplitNoSep(text, '\n');
      OnlyEntry(dec, text);
    }
  }

  lemma OneLine(dec: Decoder, line: string)
    requires '\n' !in line && |line| < 1048576
    ensures Replay(dec, line + ['\n'] + []) == Entry(dec, line)
  {
    SplitNoSep([], '\n');
    SplitNoSep(line, '\n');
    ClosedSplit(line, []);
    assert Tokens([[]]) == [] && [line] + [] == [line];
    OnlyEntry(dec, line);
  }

  lemma OnlyEntry(dec: Decoder, line: string)
    requires |line| < 1048576
    ensures Decoded(dec, [line]) == Entry(dec, line)
  {
    assert [line][1..] == [] && Decoded(dec, []) == [];
  }

  /** A line of 2^20 characters or more ends the replay. */
  lemma ReplayStops(dec: Decoder, line: string, rest: string)
    requires '\n' !in line && |line| >= 1048576
    ensures Replay(dec, line + "\n" + rest) == []
  {
    SplitNoSep(line, '\n');
    SplitAtSep(line, '\n', rest);
    assert line + "\n" + rest == line + ['\n'] + rest;
    hide Split;
  }

  // ----- Writes -----

  /** One append of a line; `landed` is how many of its bytes reached the disk. */
  datatype Write = Write(rec: IntervalRecord, landed: nat)

  function Line(fp: Fp, r: IntervalRecord): string { Marshal(fp, r) + ['\n'] }

  function Landing(fp: Fp, w: Write): string {
    var line := Line(fp, w.rec);
    if w.landed < |line| then line[..w.landed] else line
  }

  function Appended(fp: Fp, content: string, ws: seq<Write>): string
    decreases |ws|
  {
    if ws == [] then content else Appended(fp, content, Front(ws)) + Landing(fp, Last(ws))
  }

  function Full(fp: Fp, rs: seq<IntervalRecord>): seq<Write> {
    seq(|rs|, i requires 0 <= i < |rs| => Write(rs[i], |Line(fp, rs[i])|))
  }

  /** No line is left open at the end of the file. */
  predicate Closed(content: string) { content == [] || Last(content) == '\n' }

  // ----- The reference: which intervals survive -----

  /** The open end of the file: nothing, one whole record short of its newline, or debris. */
  datatype Open = Nothing | Whole(rec: IntervalRecord) | Debris

  datatype Tally = Tally(kept: seq<IntervalRecord>, open: Open, len: nat, stopped: bool)

  function After(fp: Fp, t: Tally, w: Write): Tally {
    var n := |Marshal(fp, w.rec)|;
    if w.landed == 0 then t
    else if w.landed <= n then
      t.(open := if t.open.Nothing? && w.landed == n then Whole(w.rec) else Debris, len := t.len + w.landed)
    else if t.stopped || t.len + n >= MAX_TOKEN then
      Tally(t.kept, Nothing, 0, true)
    else
      Tally(if t.open.Nothing? then t.kept + [w.rec] else t.kept, Nothing, 0, false)
  }

  function Tallied(fp: Fp, t: Tally, ws: seq<Write>): Tally
    decreases |ws|
  {
    if ws == [] then t else After(fp, Tallied(fp, t, Front(ws)), Last(ws))
  }

  /** A record that lacks only its newline still counts at the next replay. */
  function Survivors(t: Tally): seq<IntervalRecord> {
    if t.open.Whole? && !t.stopped && t.len < MAX_TOKEN then t.kept + [t.open.rec] else t.kept
  }

  function Start(dec: Decoder, content: string): Tally {
    Tally(Replay(dec, content), Nothing, 0, Stops(Front(Split(content, '\n'))))
  }

  // ----- What a tally loses -----

  function RecsOf(ws: seq<Write>): seq<IntervalRecord> { seq(|ws|, i requires 0 <= i < |ws| => ws[i].rec) }

  /** A record at the open end that a replay now would count. */
  function Pending(t: Tally): seq<IntervalRecord> {
    if t.open.Whole? && !t.stopped && t.len < MAX_TOKEN then [t.open.rec] else []
  }

  /** The write reaches a clean end with at least all of its record, within the scanner's limit. */
  predicate Holds(fp: Fp, t: Tally, w: Write) {
    var n := |Marshal(fp, w.rec)|;
    t.open.Nothing? && !t.stopped && w.landed >= n && t.len + n < MAX_TOKEN
  }

  /** The records one write takes away: its own if it does not hold, and with it whatever
      record was pending. */
  function Gone(fp: Fp, t: Tally, w: Write): seq<IntervalRecord> {
    if w.landed == 0 then [w.rec] else if Holds(fp, t, w) then [] else Pending(t) + [w.rec]
  }

  function AllGone(fp: Fp, t: Tally, ws: seq<Write>): seq<IntervalRecord>
    decreases |ws|
  {
    if ws == [] then [] else AllGone(fp, t, Front(ws)) + Gone(fp, Tallied(fp, t, Front(ws)), Last(ws))
  }

  lemma AfterSurvivors(fp: Fp, t: Tally, w: Write)
    ensures w.landed > 0 ==>
              Survivors(After(fp, t, w)) == if Holds(fp, t, w) then t.kept + [w.rec] else t.kept
    ensures Holds(fp, t, w) ==> Pending(t) == []
    ensures Survivors(t) == t.kept + Pending(t)
  {
    hide Marshal;
  }

  lemma GoneStep(fp: Fp, t: Tally, w: Write)
    ensures multiset(Survivors(t)) + multiset{w.rec}
         == multiset(Survivors(After(fp, t, w))) + multiset(Gone(fp, t, w))
  {
    AfterSurvivors(fp, t, w);
    if w.landed == 0 {
      assert After(fp, t, w) == t;
    } else {
      hide Survivors;
      hide After;
      hide Holds;
      hide Pending;
    }
  }

  /** Each record that survived before or was written since survives now or is gone, once. */
  lemma {:induction false} SurviveOrGone(fp: Fp, t: Tally, ws: seq<Write>)
    ensures multiset(Survivors(t)) + multiset(RecsOf(ws))
         == multiset(Survivors(Tallied(fp, t, ws))) + multiset(AllGone(fp, t, ws))
    decreases |ws|
  {
    hide Survivors;
    hide After;
    hide Gone;
    if ws == [] {
      assert multiset(RecsOf(ws)) == multiset{} && multiset(AllGone(fp, t, ws)) == multiset{};
    } else {
      SurviveOrGone(fp, t, Front(ws));
      GoneStep(fp, Tallied(fp, t, Front(ws)), Last(ws));
      assert RecsOf(ws) == RecsOf(Front(ws)) + [Last(ws).rec];
      assert multiset(RecsOf(ws)) == multiset(RecsOf(Front(ws))) + multiset{Last(ws).rec};
      var t', more := Tallied(fp, t, Front(ws)), Gone(fp, Tallied(fp, t, Front(ws)), Last(ws));
      assert Tallied(fp, t, ws) == After(fp, t', Last(ws));
      assert multiset(AllGone(fp, t, ws)) == multiset(AllGone(fp, t, Front(ws))) + multiset(more);
      Exchange(multiset(Survivors(t)), multiset(RecsOf(Front(ws))), multiset(Survivors(t')), multiset(AllGone(fp, t, Front(ws))),
               multiset{Last(ws).rec}, multiset(Survivors(Tallied(fp, t, ws))), multiset(more));
    }
  }

  lemma Exchange(s: multiset<IntervalRecord>, w: multiset<IntervalRecord>, s': multiset<IntervalRecord>, g: multiset<IntervalRecord>,
                 more: multiset<IntervalRecord>, s'': multiset<IntervalRecord>, g': multiset<IntervalRecord>)
    requires s + w == s' + g && s' + more == s'' + g'
    ensures s + (w + more) == s'' + (g + g')
  {
    assert s + (w + more) == (s + w) + more;
    assert (s' + g) + more == (s' + more) + g;
  }

  // ----- The reference is exact -----

  ghost predicate OpenText(fp: Fp, open: Open, text: string) {
    match open
    case Nothing => text == []
    case Whole(r) => text != [] && fp.Sound() && Printable(fp, r) && text == Marshal(fp, r)
    case Debris => text != [] && Visible(text) && Unfinished(Run(START, text))
  }

  ghost predicate Describes(fp: Fp, dec: Decoder, t: Tally, parts: seq<string>) {
    && parts != []
    && t.kept == Decoded(dec, Front(parts))
    && t.stopped == Stops(Front(parts))
    && t.len == |Last(parts)|
    && OpenText(fp, t.open, Last(parts))
  }

  lemma MarshalShape(fp: Fp, r: IntervalRecord)
    requires fp.Sound() && Printable(fp, r)
    ensures WellFormed(RecordMembers(fp, r))
    ensures Visible(Marshal(fp, r)) && '\n' !in Marshal(fp, r) && |Marshal(fp, r)| > 1
  {
    MarshalWellFormed(fp, r);
    MembersVisible(RecordMembers(fp, r));
  }

  lemma StartDescribes(fp: Fp, dec: Decoder, content: string)
    requires Closed(content)
    ensures Describes(fp, dec, Start(dec, content), Split(content, '\n'))
  {
    if content == [] {
      SplitNoSep([], '\n');
    } else {
      var body := Front(content);
      assert content == body + ['\n'] + [];
      SplitAtSep(body, '\n', []);
      SplitNoSep([], '\n');
      assert Front(Split(content, '\n')) == Split(body, '\n');
    }
  }

  /** A part of a line, glued to whatever was open. */
  lemma OpenGrows(fp: Fp, open: Open, text: string, r: IntervalRecord, k: nat)
    requires fp.Sound() && Printable(fp, r)
    requires OpenText(fp, open, text) && 0 < k <= |Marshal(fp, r)|
    ensures var open' := if open.Nothing? && k == |Marshal(fp, r)| then Whole(r) else Debris;
            OpenText(fp, open', text + Marshal(fp, r)[..k])
  {
    MarshalShape(fp, r);
    var ms, p := RecordMembers(fp, r), Marshal(fp, r)[..k];
    assert Visible(p);
    match open
    case Nothing =>
      assert text + p == p;
      if k < |Marshal(fp, r)| { ProperPartUnfinished(ms, k); } else { assert p == Marshal(fp, r); }
    case Whole(r0) =>
      MarshalShape(fp, r0);
      WholeThenMore(RecordMembers(fp, r0), ms, k);
    case Debris =>
      GluedStaysUnfinished(Run(START, text), ms, k);
      RunAppend(START, text, p);
  }

  /** A closed line yields its record exactly when nothing was open before it. */
  lemma ClosedEntry(fp: Fp, dec: Decoder, open: Open, text: string, r: IntervalRecord)
    requires fp.Sound() && Printable(fp, r) && Decodes(dec, fp)
    requires OpenText(fp, open, text)
    ensures Entry(dec, text + Marshal(fp, r)) == if open.Nothing? then [r] else []
  {
    MarshalShape(fp, r);
    var line := Marshal(fp, r);
    assert line[..|line|] == line;
    OpenGrows(fp, open, text, r, |line|);
    if open.Nothing? {
      assert text + line == line;
    } else {
      UnfinishedRejects(Run(START, text + line));
    }
    assert DropReturn(text + line) == text + line;
  }

  lemma PartDescribes(fp: Fp, dec: Decoder, t: Tally, content: string, r: IntervalRecord, k: nat)
    requires fp.Sound() && Printable(fp, r) && 0 < k <= |Marshal(fp, r)|
    requires Describes(fp, dec, t, Split(content, '\n'))
    ensures Describes(fp, dec, After(fp, t, Write(r, k)), Split(content + Marshal(fp, r)[..k], '\n'))
  {
    hide Marshal;
    var parts := Split(content, '\n');
    MarshalShape(fp, r);
    SplitTail(content, '\n', Marshal(fp, r)[..k]);
    OpenGrows(fp, t.open, Last(parts), r, k);
  }

  lemma LineDescribes(fp: Fp, dec: Decoder, t: Tally, content: string, w: Write)
    requires fp.Sound() && Decodes(dec, fp) && Printable(fp, w.rec) && w.landed > |Marshal(fp, w.rec)|
    requires Describes(fp, dec, t, Split(content, '\n'))
    ensures Describes(fp, dec, After(fp, t, w), Split(content + Line(fp, w.rec), '\n'))
  {
    hide Marshal;
    hide Split;
    hide Decoded;
    hide Entry;
    hide Printable;
    var parts, line := Split(content, '\n'), Marshal(fp, w.rec);
    MarshalShape(fp, w.rec);
    SplitClosed(content, '\n', line);
    var closed := Last(parts) + line;
    DecodedSnoc(dec, Front(parts), closed);
    ClosedEntry(fp, dec, t.open, Last(parts), w.rec);
    StopsSnoc(Front(parts), closed);
  }

  lemma AfterDescribes(fp: Fp, dec: Decoder, t: Tally, content: string, w: Write)
    requires fp.Sound() && Decodes(dec, fp) && Printable(fp, w.rec)
    requires Describes(fp, dec, t, Split(content, '\n'))
    ensures Describes(fp, dec, After(fp, t, w), Split(content + Landing(fp, w), '\n'))
  {
    hide Marshal;
    hide Describes;
    var line := Marshal(fp, w.rec);
    if w.landed == 0 {
      assert content + Landing(fp, w) == content;
    } else if w.landed <= |line| {
      assert Landing(fp, w) == line[..w.landed];
      PartDescribes(fp, dec, t, content, w.rec, w.landed);
    } else {
      LineDescribes(fp, dec, t, content, w);
    }
  }

  lemma StopsSnoc(lines: seq<string>, l: string)
    ensures Stops(lines + [l]) <==> Stops(lines) || TooLong(l)
  {
    if Stops(lines) {
      var i :| 0 <= i < |lines| && TooLong(lines[i]);
      assert TooLong((lines + [l])[i]);
    }
    if TooLong(l) { assert TooLong((lines + [l])[|lines|]); }
  }

  lemma OpenEntry(fp: Fp, dec: Decoder, open: Open, text: string)
    requires Decodes(dec, fp) && OpenText(fp, open, text) && text != []
    ensures Entry(dec, text) == if open.Whole? then [open.rec] else []
  {
    if open.Whole? {
      MarshalShape(fp, open.rec);
    } else {
      UnfinishedRejects(Run(START, text));
    }
    assert Visible(text) && DropReturn(text) == text;
  }

  lemma DescribedSurvive(fp: Fp, dec: Decoder, t: Tally, parts: seq<string>)
    requires Decodes(dec, fp) && Describes(fp, dec, t, parts)
    ensures Decoded(dec, Tokens(parts)) == Survivors(t)
  {
    var text := Last(parts);
    if text != [] {
      assert parts == Front(parts) + [text];
      DecodedSnoc(dec, Front(parts), text);
      OpenEntry(fp, dec, t.open, text);
    }
  }

  ghost predicate AllPrintable(fp: Fp, ws: seq<Write>) {
    forall w :: w in ws ==> Printable(fp, w.rec)
  }

  lemma {:induction false} TalliedDescribes(fp: Fp, dec: Decoder, content: string, ws: seq<Write>)
    requires fp.Sound() && Decodes(dec, fp) && Closed(content) && AllPrintable(fp, ws)
    ensures Describes(fp, dec, Tallied(fp, Start(dec, content), ws), Split(Appended(fp, content, ws), '\n'))
    decreases |ws|
  {
    if ws == [] {
      StartDescribes(fp, dec, content);
    } else {
      assert Last(ws) in ws;
      TalliedDescribes(fp, dec, content, Front(ws));
      AfterDescribes(fp, dec, Tallied(fp, Start(dec, content), Front(ws)), Appended(fp, content, Front(ws)), Last(ws));
    }
  }

  /** Main result: after any writes, each cut anywhere, replay reads exactly the survivors. */
  lemma ReplayReadsSurvivors(fp: Fp, dec: Decoder, content: string, ws: seq<Write>)
    requires fp.Sound() && Decodes(dec, fp) && Closed(content) && AllPrintable(fp, ws)
    ensures Replay(dec, Appended(fp, content, ws)) == Survivors(Tallied(fp, Start(dec, content), ws))
  {
    TalliedDescribes(fp, dec, content, ws);
    DescribedSurvive(fp, dec, Tallied(fp, Start(dec, content), ws), Split(Appended(fp, content, ws), '\n'));
  }

  // ----- One torn write -----

  lemma {:induction false} TalliedAppend(fp: Fp, t: Tally, a: seq<Write>, b: seq<Write>)
    ensures Tallied(fp, t, a + b) == Tallied(fp, Tallied(fp, t, a), b)
    decreases |b|
  {
    if b == [] {
      assert a + b == a;
    } else {
      assert Front(a + b) == a + Front(b);
      TalliedAppend(fp, t, a, Front(b));
    }
  }

  lemma {:induction false} AppendedAppend(fp: Fp, content: string, a: seq<Write>, b: seq<Write>)
    ensures Appended(fp, content, a + b) == Appended(fp, Appended(fp, content, a), b)
    decreases |b|
  {
    hide Landing;
    if b == [] {
      assert a + b == a;
    } else {
      assert Front(a + b) == a + Front(b);
      AppendedAppend(fp, content, a, Front(b));
    }
  }

  /** Lines as the reporter writes them (Codec.LineLength bounds them by 1000). */
  predicate Short(fp: Fp, rs: seq<IntervalRecord>) {
    forall r :: r in rs ==> Printable(fp, r) && 2 * |Marshal(fp, r)| < MAX_TOKEN
  }

  lemma {:induction false} TalliedFull(fp: Fp, t: Tally, rs: seq<IntervalRecord>)
    requires t.open.Nothing? && t.len == 0 && !t.stopped && Short(fp, rs)
    ensures Tallied(fp, t, Full(fp, rs)) == t.(kept := t.kept + rs)
    decreases |rs|
  {
    if rs == [] {
      assert t.kept + rs == t.kept;
    } else {
      assert Last(rs) in rs;
      assert Front(Full(fp, rs)) == Full(fp, Front(rs));
      TalliedFull(fp, t, Front(rs));
      assert (t.kept + Front(rs)) + [Last(rs)] == t.kept + rs;
    }
  }

  /** Lines that land on a clean end take nothing away. */
  lemma {:induction false} NoneGone(fp: Fp, t: Tally, rs: seq<IntervalRecord>)
    requires t.open.Nothing? && t.len == 0 && !t.stopped && Short(fp, rs)
    ensures AllGone(fp, t, Full(fp, rs)) == []
    decreases |rs|
  {
    if rs != [] {
      assert Last(rs) in rs;
      assert Front(Full(fp, rs)) == Full(fp, Front(rs)) && Last(Full(fp, rs)) == Write(Last(rs), |Line(fp, Last(rs))|);
      hide Marshal;
      NoneGone(fp, t, Front(rs));
      TalliedFull(fp, t, Front(rs));
    }
  }

  predicate Intact(content: string) {
    Closed(content) && !Stops(Split(content, '\n'))
  }

  lemma IntactStart(dec: Decoder, content: string)
    requires Intact(content)
    ensures !Start(dec, content).stopped
  {
    var parts := Split(content, '\n');
    forall i | 0 <= i < |Front(parts)| ensures !TooLong(Front(parts)[i]) {
      assert !TooLong(parts[i]);
    }
  }

  /** A crash inside the line of `torn` loses that interval only; once the daemon
      appends again, the fragment swallows exactly one more. */
  lemma TornTail(fp: Fp, dec: Decoder, content: string, rs: seq<IntervalRecord>, torn: IntervalRecord, k: nat,
                 later: seq<IntervalRecord>)
    requires fp.Sound() && Decodes(dec, fp) && Intact(content)
    requires Short(fp, rs) && Short(fp, [torn]) && Short(fp, later)
    requires 0 < k < |Marshal(fp, torn)|
    ensures var cut := Appended(fp, content, Full(fp, rs) + [Write(torn, k)]);
            && Replay(dec, cut) == Replay(dec, content) + rs
            && Replay(dec, Appended(fp, cut, Full(fp, later)))
               == Replay(dec, content) + rs + if later == [] then [] else later[1..]
  {
    var t := Tallied(fp, Start(dec, content), Full(fp, rs) + [Write(torn, k)]);
    IntactStart(dec, content);
    TalliedFull(fp, Start(dec, content), rs);
    TalliedAppend(fp, Start(dec, content), Full(fp, rs), [Write(torn, k)]);
    TalliedOne(fp, Tallied(fp, Start(dec, content), Full(fp, rs)), Write(torn, k));
    assert torn in [torn];
    assert t == Tally(Replay(dec, content) + rs, Debris, k, false);
    AfterOpenEnd(fp, dec, content, Full(fp, rs) + [Write(torn, k)], t, later);
  }

  /** A crash between the line and its newline: the interval is counted by the next
      replay, and lost together with its successor by every replay after that. */
  lemma CutBeforeNewline(fp: Fp, dec: Decoder, content: string, rs: seq<IntervalRecord>, cut: IntervalRecord,
                         later: seq<IntervalRecord>)
    requires fp.Sound() && Decodes(dec, fp) && Intact(content)
    requires Short(fp, rs) && Short(fp, [cut]) && Short(fp, later)
    ensures var file := Appended(fp, content, Full(fp, rs) + [Write(cut, |Marshal(fp, cut)|)]);
            && Replay(dec, file) == Replay(dec, content) + rs + [cut]
            && (later != [] ==> Replay(dec, Appended(fp, file, Full(fp, later))) == Replay(dec, content) + rs + later[1..])
  {
    var w := Write(cut, |Marshal(fp, cut)|);
    var t := Tallied(fp, Start(dec, content), Full(fp, rs) + [w]);
    assert cut in [cut];
    MarshalShape(fp, cut);
    IntactStart(dec, content);
    TalliedFull(fp, Start(dec, content), rs);
    TalliedAppend(fp, Start(dec, content), Full(fp, rs), [w]);
    TalliedOne(fp, Tallied(fp, Start(dec, content), Full(fp, rs)), w);
    assert t == Tally(Replay(dec, content) + rs, Whole(cut), w.landed, false);
    AfterOpenEnd(fp, dec, content, Full(fp, rs) + [w], t, later);
  }

  lemma TalliedOne(fp: Fp, t: Tally, w: Write)
    ensures Tallied(fp, t, [w]) == After(fp, t, w)
  {
    assert Front([w]) == [];
  }

  lemma TalliedPastOpenEnd(fp: Fp, t: Tally, later: seq<IntervalRecord>)
    requires later != [] && Short(fp, later)
    requires !t.open.Nothing? && !t.stopped && 2 * t.len < MAX_TOKEN
    ensures Tallied(fp, t, Full(fp, later)) == Tally(t.kept + later[1..], Nothing, 0, false)
  {
    var first := [Write(later[0], |Line(fp, later[0])|)];
    assert later[0] in later;
    assert Full(fp, later) == first + Full(fp, later[1..]);
    TalliedAppend(fp, t, first, Full(fp, later[1..]));
    TalliedOne(fp, t, first[0]);
    TalliedFull(fp, Tally(t.kept, Nothing, 0, false), later[1..]);
  }

  lemma AfterOpenEnd(fp: Fp, dec: Decoder, content: string, ws: seq<Write>, t: Tally, later: seq<IntervalRecord>)
    requires fp.Sound() && Decodes(dec, fp) && Closed(content) && AllPrintable(fp, ws) && Short(fp, later)
    requires t == Tallied(fp, Start(dec, content), ws)
    requires !t.open.Nothing? && !t.stopped && 2 * t.len < MAX_TOKEN
    ensures Replay(dec, Appended(fp, content, ws)) == Survivors(t)
    ensures Replay(dec, Appended(fp, Appended(fp, content, ws), Full(fp, later)))
         == if later == [] then Survivors(t) else t.kept + later[1..]
  {
    ReplayReadsSurvivors(fp, dec, content, ws);
    if later == [] {
      assert Full(fp, later) == [];
    } else {
      TalliedPastOpenEnd(fp, t, later);
      TalliedAppend(fp, Start(dec, content), ws, Full(fp, later));
      AppendedAppend(fp, content, ws, Full(fp, later));
      assert AllPrintable(fp, ws + Full(fp, later));
      ReplayReadsSurvivors(fp, dec, content, ws + Full(fp, later));
    }
  }

  // ----- Exactly when appending is safe -----

  /** A log whose writes all land is read back in full. */
  lemma ReplayFull(fp: Fp, dec: Decoder, content: string, rs: seq<IntervalRecord>)
    requires fp.Sound() && Decodes(dec, fp) && Intact(content) && Short(fp, rs)
    ensures Replay(dec, Appended(fp, content, Full(fp, rs))) == Replay(dec, content) + rs
  {
    hide Replay;
    hide Marshal;
    IntactStart(dec, content);
    assert AllPrintable(fp, Full(fp, rs));
    TalliedFull(fp, Start(dec, content), rs);
    ReplayReadsSurvivors(fp, dec, content, Full(fp, rs));
  }

  lemma ClosedMeansEmptyPiece(content: string)
    ensures Closed(content) <==> Last(Split(content, '\n')) == []
  {
    SplitNoSep([], '\n');
    if content != [] {
      var body, c := Front(content), Last(content);
      assert content == body + [c];
      if c == '\n' {
        assert content == body + ['\n'] + [];
        SplitAtSep(body, '\n', []);
      } else {
        SplitTail(body, '\n', [c]);
      }
    }
  }

  lemma IntactMeansReady(fp: Fp, dec: Decoder, t: Tally, content: string)
    requires Describes(fp, dec, t, Split(content, '\n'))
    ensures Intact(content) <==> t.open.Nothing? && !t.stopped
  {
    var parts := Split(content, '\n');
    ClosedMeansEmptyPiece(content);
    assert t.open.Nothing? <==> Last(parts) == [];
    assert parts == Front(parts) + [Last(parts)];
    StopsSnoc(Front(parts), Last(parts));
  }

  /** Full lines add at most one interval each, and the first adds none to a bad end. */
  lemma {:induction false} KeptGrowth(fp: Fp, t: Tally, rs: seq<IntervalRecord>)
    ensures var t' := Tallied(fp, t, Full(fp, rs));
            && |t'.kept| <= |t.kept| + |rs|
            && (rs != [] ==> t'.open.Nothing?)
            && (rs != [] && (t.stopped || !t.open.Nothing?) ==> |t'.kept| < |t.kept| + |rs|)
    decreases |rs|
  {
    hide Marshal;
    if rs != [] {
      assert Front(Full(fp, rs)) == Full(fp, Front(rs)) && Last(Full(fp, rs)) == Write(Last(rs), |Line(fp, Last(rs))|);
      KeptGrowth(fp, t, Front(rs));
    }
  }

  /** On a file this program left behind, cut or not, what is appended after a restart is
      all read back by the next one if and only if the file ends in a newline (or is
      empty) and no line is too long for the scanner. */
  lemma AppendsSurviveIff(fp: Fp, dec: Decoder, content: string, ws: seq<Write>, rs: seq<IntervalRecord>)
    requires fp.Sound() && Decodes(dec, fp) && Closed(content) && AllPrintable(fp, ws)
    requires rs != [] && Short(fp, rs)
    ensures var file := Appended(fp, content, ws);
            Replay(dec, Appended(fp, file, Full(fp, rs))) == Replay(dec, file) + rs <==> Intact(file)
  {
    var file, t := Appended(fp, content, ws), Tallied(fp, Start(dec, content), ws);
    TalliedDescribes(fp, dec, content, ws);
    IntactMeansReady(fp, dec, t, file);
    if Intact(file) {
      ReplayFull(fp, dec, file, rs);
    } else {
      ReplayReadsSurvivors(fp, dec, content, ws);
      AppendedAppend(fp, content, ws, Full(fp, rs));
      TalliedAppend(fp, Start(dec, content), ws, Full(fp, rs));
      assert AllPrintable(fp, ws + Full(fp, rs));
      ReplayReadsSurvivors(fp, dec, content, ws + Full(fp, rs));
      KeptGrowth(fp, t, rs);
      assert |Survivors(t)| >= |t.kept|;
    }
  }
}
