/** Syntax check of a JSON text (section 2 of RFC 8259), as the pushdown
    scanner that encoding/json runs over a log line before it decodes it. */
module Json {
  import opened Text

  datatype Frame = InKey | InValue | InArray

  type Letters = s: string | forall i :: 0 <= i < |s| ==> 'a' <= s[i] <= 'z'

  datatype Mode =
    | BeginValue | BeginValueOrEmpty | BeginKey | BeginKeyOrEmpty
    | Str | Esc | Hex(left: nat)
    | Neg | Zero | Int | Dot | Frac | Exp | ExpSign | ExpInt
    | Word(rest: Letters)
    | EndValue | Bad

  /** `stack` holds the open objects and arrays, innermost first. */
  datatype State = State(mode: Mode, stack: seq<Frame>)

  const MAX_DEPTH := 10000

  predicate Space(c: char) { c in {' ', '\t', '\r', '\n'} }
  predicate NonZero(c: char) { '1' <= c <= '9' }
  predicate HexDigit(c: char) { IsDigit(c) || 'a' <= c <= 'f' || 'A' <= c <= 'F' }

  function Push(f: Frame, next: Mode, stack: seq<Frame>): State {
    if |stack| < MAX_DEPTH then State(next, [f] + stack) else State(Bad, stack)
  }

  /** What may follow a finished value. */
  function AfterValue(stack: seq<Frame>, c: char): State {
    if Space(c) then State(EndValue, stack)
    else if stack == [] then State(Bad, stack)
    else match stack[0]
      case InKey => if c == ':' then State(BeginValue, [InValue] + stack[1..]) else State(Bad, stack)
      case InValue =>
        if c == ',' then State(BeginKey, [InKey] + stack[1..])
        else if c == '}' then State(EndValue, stack[1..])
        else State(Bad, stack)
      case InArray =>
        if c == ',' then State(BeginValue, stack)
        else if c == ']' then State(EndValue, stack[1..])
        else State(Bad, stack)
  }

  function StartValue(stack: seq<Frame>, c: char): State {
    if Space(c) then State(BeginValue, stack)
    else if c == '{' then Push(InKey, BeginKeyOrEmpty, stack)
    else if c == '[' then Push(InArray, BeginValueOrEmpty, stack)
    else if c == '"' then State(Str, stack)
    else if c == '-' then State(Neg, stack)
    else if c == '0' then State(Zero, stack)
    else if NonZero(c) then State(Int, stack)
    else if c == 't' then State(Word("rue"), stack)
    else if c == 'f' then State(Word("alse"), stack)
    else if c == 'n' then State(Word("ull"), stack)
    else State(Bad, stack)
  }

  /** One scanner step. */
  function Step(q: State, c: char): State {
    var st := q.stack;
    match q.mode
    case BeginValue => StartValue(st, c)
    case BeginValueOrEmpty =>
      if Space(c) then q
      else if c == ']' && st != [] then State(EndValue, st[1..])
      else StartValue(st, c)
    case BeginKeyOrEmpty =>
      if Space(c) then q
      else if c == '}' && st != [] then State(EndValue, st[1..])
      else if c == '"' then State(Str, st)
      else State(Bad, st)
    case BeginKey =>
      if Space(c) then q
      else if c == '"' then State(Str, st)
      else State(Bad, st)
    case Str =>
      if c == '"' then State(EndValue, st)
      else if c == '\\' then State(Esc, st)
      else if c < ' ' then State(Bad, st)
      else q
    case Esc =>
      if c in {'b', 'f', 'n', 'r', 't', '\\', '/', '"'} then State(Str, st)
      else if c == 'u' then State(Hex(3), st)
      else State(Bad, st)
    case Hex(left) =>
      if !HexDigit(c) then State(Bad, st)
      else if left == 0 then State(Str, st)
      else State(Hex(left - 1), st)
    case Neg =>
      if c == '0' then State(Zero, st)
      else if NonZero(c) then State(Int, st)
      else State(Bad, st)
    case Int => if IsDigit(c) then q else Fraction(st, c)
    case Zero => Fraction(st, c)
    case Dot => if IsDigit(c) then State(Frac, st) else State(Bad, st)
    case Frac =>
      if IsDigit(c) then q
      else if c == 'e' || c == 'E' then State(Exp, st)
      else AfterValue(st, c)
    case Exp =>
      if c == '+' || c == '-' then State(ExpSign, st)
      else if IsDigit(c) then State(ExpInt, st)
      else State(Bad, st)
    case ExpSign => if IsDigit(c) then State(ExpInt, st) else State(Bad, st)
    case ExpInt => if IsDigit(c) then q else AfterValue(st, c)
    case Word(rest) =>
      if rest == [] || c != rest[0] then State(Bad, st)
      else if |rest| == 1 then State(EndValue, st)
      else State(Word(rest[1..]), st)
    case EndValue => AfterValue(st, c)
    case Bad => q
  }

  function Fraction(st: seq<Frame>, c: char): State {
    if c == '.' then State(Dot, st)
    else if c == 'e' || c == 'E' then State(Exp, st)
    else AfterValue(st, c)
  }

  function Run(q: State, s: string): State
    decreases |s|
  {
    if s == [] then q else Run(Step(q, s[0]), s[1..])
  }

  const START := State(BeginValue, [])

  /** End of input: the scanner feeds itself one space. */
  predicate Accepts(q: State) {
    Step(q, ' ') == State(EndValue, [])
  }

  predicate Valid(s: string) { Accepts(Run(START, s)) }

  lemma {:induction false} RunAppend(q: State, a: string, b: string)
    ensures Run(q, a + b) == Run(Run(q, a), b)
    decreases |a|
  {
    if a == [] {
      assert a + b == b;
    } else {
      assert (a + b)[1..] == a[1..] + b;
      RunAppend(Step(q, a[0]), a[1..], b);
    }
  }

  lemma RunOne(q: State, c: char)
    ensures Run(q, [c]) == Step(q, c)
  {
    assert Run(q, [c]) == Run(Step(q, c), [c][1..]);
  }

  lemma RunSnoc(q: State, a: string, c: char)
    ensures Run(q, a + [c]) == Step(Run(q, a), c)
  {
    RunAppend(q, a, [c]);
    RunOne(Run(q, a), c);
  }

  lemma RunBracketed(q: State, open: char, s: string, close: char)
    ensures Run(q, [open] + s + [close]) == Step(Run(Step(q, open), s), close)
  {
    RunOne(q, open);
    RunAppend(q, [open], s);
    RunSnoc(q, [open] + s, close);
  }

  lemma {:induction false} RunBad(q: State, s: string)
    requires q.mode.Bad?
    ensures Run(q, s) == q
    decreases |s|
  {
    if s != [] { RunBad(q, s[1..]); }
  }

  // ----- Texts that do not nest -----

  /** Characters a scanner reads without opening or closing anything. */
  predicate Flat(s: string) { forall i :: 0 <= i < |s| ==> s[i] !in {'{', '}', '[', ']'} }

  /** Characters that stand for themselves inside a string. */
  predicate Plain(s: string) { forall i :: 0 <= i < |s| ==> s[i] >= ' ' && s[i] !in {'"', '\\'} }

  lemma {:induction false} FlatKeepsDepth(q: State, s: string)
    requires Flat(s)
    ensures |Run(q, s).stack| == |q.stack|
    decreases |s|
  {
    if s != [] { FlatKeepsDepth(Step(q, s[0]), s[1..]); }
  }

  lemma {:induction false} RunPlain(st: seq<Frame>, s: string)
    requires Plain(s)
    ensures Run(State(Str, st), s) == State(Str, st)
    decreases |s|
  {
    if s != [] {
      assert Step(State(Str, st), s[0]) == State(Str, st);
      RunPlain(st, s[1..]);
    }
  }

  function Quote(s: string): string { ['"'] + s + ['"'] }

  lemma RunQuoted(q: State, s: string)
    requires Plain(s)
    requires Step(q, '"') == State(Str, q.stack)
    ensures Run(q, Quote(s)) == State(EndValue, q.stack)
  {
    RunBracketed(q, '"', s, '"');
    RunPlain(q.stack, s);
    CloseQuote(q.stack);
  }

  lemma CloseQuote(st: seq<Frame>)
    ensures Step(State(Str, st), '"') == State(EndValue, st)
  {
  }

  // ----- Member values: plain strings and numbers -----

  predicate NumberEnd(m: Mode) { m in {Zero, Int, Frac, ExpInt} }

  /** A number token: the scanner ends inside a complete number, whatever is open. */
  ghost predicate Number(v: string) {
    && v != []
    && (forall i :: 0 <= i < |v| ==> v[i] in {'0', '1', '2', '3', '4', '5', '6', '7', '8', '9', '+', '-', '.', 'e', 'E'})
    && (forall st :: NumberEnd(Run(State(BeginValue, st), v).mode) && Run(State(BeginValue, st), v).stack == st)
  }

  /** A member value as the log prints it. */
  ghost predicate Scalar(v: string) {
    Number(v) || exists s :: Plain(s) && Flat(s) && ',' !in s && v == Quote(s)
  }

  /** A scalar followed by a comma or a brace is a finished value. */
  lemma ScalarEnds(v: string, st: seq<Frame>, c: char)
    requires Scalar(v)
    requires c in {',', '}'}
    ensures Step(Run(State(BeginValue, st), v), c) == AfterValue(st, c)
  {
    if !Number(v) {
      var s :| Plain(s) && v == Quote(s);
      RunQuoted(State(BeginValue, st), s);
    }
  }

  lemma ScalarFlat(v: string)
    requires Scalar(v)
    ensures Flat(v) && ',' !in v && v != [] && v[0] !in {'{', '}', ','}
  {
    if !Number(v) {
      var s :| Plain(s) && Flat(s) && ',' !in s && v == Quote(s);
    }
  }
}
