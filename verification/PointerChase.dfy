/** BPF_CORE_READ as the sequence of reads its macros expand to, and what it means
    (bpf/headers/bpf_core_read.h). */
module PointerChase {
  import opened Wrappers
  import opened Words
  import opened Text

  type Ty = string
  type Accessor = string

  /** Where an accessor lies in a struct, and the struct its value points to. */
  datatype Slot = Slot(offset: u64, pointee: Ty)

  type Layout = map<(Ty, Accessor), Slot>

  /** Readable words of kernel memory. */
  type Memory = u64 -> Option<u64>

  predicate Typed(types: Layout, ty: Ty, path: seq<Accessor>)
    decreases |path|
  {
    path == [] || ((ty, path[0]) in types && Typed(types, types[(ty, path[0])].pointee, path[1..]))
  }

  /** typeof(src->a->b->...) */
  function TypeOf(types: Layout, ty: Ty, path: seq<Accessor>): Ty
    requires Typed(types, ty, path)
    decreases |path|
  {
    if path == [] then ty else TypeOf(types, types[(ty, path[0])].pointee, path[1..])
  }

  // ----- The expansion -----

  /** One `___read`: `base` is the source expression or the temporary; the cast is to
      the type of the source followed through `path`. */
  datatype Stmt = ReadStmt(toResult: bool, fromTemp: bool, path: seq<Accessor>, accessor: Accessor)

  /** ___rd_p1 .. ___rd_p9 */
  function RdP(xs: seq<Accessor>): seq<Stmt>
    requires xs != []
    decreases |xs|
  {
    if |xs| == 1 then [ReadStmt(false, false, [], xs[0])]
    else RdP(Front(xs)) + [ReadStmt(false, true, Front(xs), Last(xs))]
  }

  /** ___core_read0 and ___core_readN */
  function CoreRead(xs: seq<Accessor>): seq<Stmt>
    requires xs != []
  {
    if |xs| == 1 then [ReadStmt(true, false, [], xs[0])]
    else RdP(Front(xs)) + [ReadStmt(true, true, Front(xs), Last(xs))]
  }

  // ----- Running it -----

  /** The temporary, the result, and the addresses read so far. */
  datatype Frame = Frame(temp: u64, result: u64, trail: seq<u64>)

  /** bpf_probe_read_kernel zeroes its destination when it faults. */
  function Fetch(mem: Memory, address: u64): u64 {
    match mem(address) case Some(v) => v case None => 0
  }

  predicate StmtTyped(types: Layout, ty: Ty, s: Stmt) {
    Typed(types, ty, s.path) && (TypeOf(types, ty, s.path), s.accessor) in types
  }

  function Exec(types: Layout, mem: Memory, ty: Ty, src: u64, s: Stmt, f: Frame): Frame
    requires StmtTyped(types, ty, s)
  {
    var base := if s.fromTemp then f.temp else src;
    var address := Add64(base, types[(TypeOf(types, ty, s.path), s.accessor)].offset);
    var v := Fetch(mem, address);
    if s.toResult then Frame(f.temp, v, f.trail + [address]) else Frame(v, f.result, f.trail + [address])
  }

  function ExecAll(types: Layout, mem: Memory, ty: Ty, src: u64, ss: seq<Stmt>, f: Frame): Frame
    requires forall s :: s in ss ==> StmtTyped(types, ty, s)
    decreases |ss|
  {
    if ss == [] then f
    else
      assert Last(ss) in ss;
      Exec(types, mem, ty, src, Last(ss), ExecAll(types, mem, ty, src, Front(ss), f))
  }

  // ----- The meaning of src->a->b->... -----

  /** The value, if every link is readable. */
  function Arrow(types: Layout, mem: Memory, ty: Ty, src: u64, path: seq<Accessor>): Option<u64>
    requires Typed(types, ty, path)
    decreases |path|
  {
    if path == [] then Some(src) else
    var slot := types[(ty, path[0])];
    match mem(Add64(src, slot.offset))
    case None => None
    case Some(next) => Arrow(types, mem, slot.pointee, next, path[1..])
  }

  /** The addresses visited, a faulting link counting as a null pointer. */
  function Trail(types: Layout, mem: Memory, ty: Ty, src: u64, path: seq<Accessor>): seq<u64>
    requires Typed(types, ty, path)
    decreases |path|
  {
    if path == [] then [] else
    var slot := types[(ty, path[0])];
    var address := Add64(src, slot.offset);
    [address] + Trail(types, mem, slot.pointee, Fetch(mem, address), path[1..])
  }

  /** Where the chase stands after the path, a faulting link counting as a null pointer. */
  function Reached(types: Layout, mem: Memory, ty: Ty, src: u64, path: seq<Accessor>): u64
    requires Typed(types, ty, path)
    decreases |path|
  {
    if path == [] then src else
    var slot := types[(ty, path[0])];
    Reached(types, mem, slot.pointee, Fetch(mem, Add64(src, slot.offset)), path[1..])
  }

  // ----- The expansion means what it should -----

  lemma {:induction false} TypedSnoc(types: Layout, ty: Ty, path: seq<Accessor>)
    requires path != [] && Typed(types, ty, path)
    ensures Typed(types, ty, Front(path)) && (TypeOf(types, ty, Front(path)), Last(path)) in types
    decreases |path|
  {
    if |path| > 1 {
      assert Front(path)[1..] == Front(path[1..]);
      TypedSnoc(types, types[(ty, path[0])].pointee, path[1..]);
    }
  }

  /** Following a path one link at a time from the front is following its last link last. */
  lemma {:induction false} ChaseSnoc(types: Layout, mem: Memory, ty: Ty, src: u64, path: seq<Accessor>)
    requires path != [] && Typed(types, ty, path)
    ensures Typed(types, ty, Front(path)) && (TypeOf(types, ty, Front(path)), Last(path)) in types
    ensures var address := Add64(Reached(types, mem, ty, src, Front(path)),
                                 types[(TypeOf(types, ty, Front(path)), Last(path))].offset);
            && Reached(types, mem, ty, src, path) == Fetch(mem, address)
            && Trail(types, mem, ty, src, path) == Trail(types, mem, ty, src, Front(path)) + [address]
    decreases |path|
  {
    TypedSnoc(types, ty, path);
    if |path| > 1 {
      var slot := types[(ty, path[0])];
      assert Front(path)[1..] == Front(path[1..]);
      ChaseSnoc(types, mem, slot.pointee, Fetch(mem, Add64(src, slot.offset)), path[1..]);
    }
  }

  ghost predicate AllTyped(types: Layout, ty: Ty, ss: seq<Stmt>) {
    forall s :: s in ss ==> StmtTyped(types, ty, s)
  }

  lemma {:induction false} RdPRuns(types: Layout, mem: Memory, ty: Ty, src: u64, xs: seq<Accessor>, f: Frame)
    requires xs != [] && Typed(types, ty, xs) && f.trail == []
    ensures AllTyped(types, ty, RdP(xs))
    ensures ExecAll(types, mem, ty, src, RdP(xs), f)
         == Frame(Reached(types, mem, ty, src, xs), f.result, Trail(types, mem, ty, src, xs))
    decreases |xs|
  {
    ChaseSnoc(types, mem, ty, src, xs);
    if |xs| == 1 {
      assert Front(xs) == [] && Front(RdP(xs)) == [];
    } else {
      RdPRuns(types, mem, ty, src, Front(xs), f);
      assert Front(RdP(xs)) == RdP(Front(xs));
    }
  }

  /** Main result: the expansion makes one read per accessor, left to right, each from
      the address the one before it fetched. */
  lemma CoreReadRuns(types: Layout, mem: Memory, ty: Ty, src: u64, xs: seq<Accessor>, f: Frame)
    requires xs != [] && Typed(types, ty, xs) && f.trail == []
    ensures AllTyped(types, ty, CoreRead(xs)) && |CoreRead(xs)| == |xs|
    ensures ExecAll(types, mem, ty, src, CoreRead(xs), f).result == Reached(types, mem, ty, src, xs)
    ensures ExecAll(types, mem, ty, src, CoreRead(xs), f).trail == Trail(types, mem, ty, src, xs)
  {
    ChaseSnoc(types, mem, ty, src, xs);
    RdPLength(xs);
    if |xs| == 1 {
      assert Front(xs) == [] && Front(CoreRead(xs)) == [];
    } else {
      RdPRuns(types, mem, ty, src, Front(xs), f);
      RdPLength(Front(xs));
      assert Front(CoreRead(xs)) == RdP(Front(xs));
    }
  }

  lemma {:induction false} RdPLength(xs: seq<Accessor>)
    requires xs != []
    ensures |RdP(xs)| == |xs|
    decreases |xs|
  {
    if |xs| > 1 { RdPLength(Front(xs)); }
  }

  /** No member offset of any type is itself a readable address. */
  ghost predicate NullUnreadable(types: Layout, mem: Memory) {
    forall k :: k in types ==> mem(types[k].offset) == None
  }

  lemma {:induction false} ReachedIsArrow(types: Layout, mem: Memory, ty: Ty, src: u64, path: seq<Accessor>)
    requires Typed(types, ty, path)
    ensures match Arrow(types, mem, ty, src, path)
            case Some(v) => Reached(types, mem, ty, src, path) == v
            case None => NullUnreadable(types, mem) ==> Reached(types, mem, ty, src, path) == 0
    decreases |path|
  {
    if path != [] {
      var slot := types[(ty, path[0])];
      var address := Add64(src, slot.offset);
      ReachedIsArrow(types, mem, slot.pointee, Fetch(mem, address), path[1..]);
      if mem(address).None? && NullUnreadable(types, mem) {
        NullStaysNull(types, mem, slot.pointee, path[1..]);
      }
    }
  }

  lemma {:induction false} NullStaysNull(types: Layout, mem: Memory, ty: Ty, path: seq<Accessor>)
    requires Typed(types, ty, path) && NullUnreadable(types, mem)
    ensures Reached(types, mem, ty, 0, path) == 0
    decreases |path|
  {
    if path != [] {
      var slot := types[(ty, path[0])];
      assert mem(slot.offset) == None && Add64(0, slot.offset) == slot.offset;
      NullStaysNull(types, mem, slot.pointee, path[1..]);
    }
  }

  /** BPF_CORE_READ(src, a, b, ...) yields src->a->b->... when every link is readable,
      and zero otherwise, as long as the null page is not. */
  lemma CoreReadMeansArrow(types: Layout, mem: Memory, ty: Ty, src: u64, xs: seq<Accessor>, f: Frame)
    requires xs != [] && Typed(types, ty, xs) && f.trail == []
    ensures AllTyped(types, ty, CoreRead(xs))
    ensures match Arrow(types, mem, ty, src, xs)
            case Some(v) => ExecAll(types, mem, ty, src, CoreRead(xs), f).result == v
            case None => NullUnreadable(types, mem) ==> ExecAll(types, mem, ty, src, CoreRead(xs), f).result == 0
  {
    CoreReadRuns(types, mem, ty, src, xs, f);
    ReachedIsArrow(types, mem, ty, src, xs);
  }
}
