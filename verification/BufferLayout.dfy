/** The index arithmetic of Buffer: where the readable bytes are and how large the vector is. */
module BufferLayout {

  const CHEAP_PREPEND: nat := 8
  const EXTRA: nat := 65536

  datatype Layout = Layout(size: nat, reader: nat, writer: nat, data: string) {
    ghost predicate Valid() {
      CHEAP_PREPEND <= reader <= writer <= size && |data| == writer - reader
    }

    function Writable(): int { size - writer }
  }

  function Fresh(initialSize: nat): Layout {
    Layout(CHEAP_PREPEND + initialSize, CHEAP_PREPEND, CHEAP_PREPEND, "")
  }

  function RetrieveAll(b: Layout): Layout {
    b.(reader := CHEAP_PREPEND, writer := CHEAP_PREPEND, data := "")
  }

  function Retrieve(b: Layout, len: nat): Layout {
    if len <= |b.data| then b.(reader := b.reader + len, data := b.data[len..]) else RetrieveAll(b)
  }

  function MakeSpace(b: Layout, len: nat): Layout
    requires b.Valid()
  {
    if b.Writable() + b.reader < len + CHEAP_PREPEND then b.(size := b.writer + len)
    else b.(reader := CHEAP_PREPEND, writer := CHEAP_PREPEND + |b.data|)
  }

  function EnsureWritable(b: Layout, len: nat): (r: Layout)
    requires b.Valid()
    ensures r.Valid() && len <= r.Writable() && r.data == b.data && b.size <= r.size
    ensures r.size <= b.size || r.size < CHEAP_PREPEND + 2 * (|b.data| + len)
  {
    if b.Writable() < len then MakeSpace(b, len) else b
  }

  function Append(b: Layout, s: string): (r: Layout)
    requires b.Valid()
    ensures r.Valid()
  {
    var b1 := EnsureWritable(b, |s|);
    b1.(writer := b1.writer + |s|, data := b1.data + s)
  }

  /** readv filled the writable part first and the overflow area with the rest. */
  function ReadFd(b: Layout, s: string): (r: Layout)
    requires b.Valid()
    ensures r.Valid()
  {
    if |s| <= b.Writable() then b.(writer := b.writer + |s|, data := b.data + s)
    else Append(b.(writer := b.size, data := b.data + s[..b.Writable()]), s[b.Writable()..])
  }

  datatype Op = Put(s: string) | Take(len: nat) | TakeAll | Receive(s: string)

  function Apply(b: Layout, op: Op): (r: Layout)
    requires b.Valid()
    ensures r.Valid()
  {
    match op
    case Put(s) => Append(b, s)
    case Take(len) => Retrieve(b, len)
    case TakeAll => RetrieveAll(b)
    case Receive(s) => ReadFd(b, s)
  }

  function Run(b: Layout, ops: seq<Op>): (r: Layout)
    requires b.Valid()
    ensures r.Valid()
  {
    if ops == [] then b else Apply(Run(b, ops[..|ops| - 1]), ops[|ops| - 1])
  }

  // ---- the plain byte queue it refines

  function QueueRun(ops: seq<Op>): string {
    if ops == [] then "" else
      var q := QueueRun(ops[..|ops| - 1]);
      match ops[|ops| - 1]
      case Put(s) => q + s
      case Take(len) => if len <= |q| then q[len..] else ""
      case TakeAll => ""
      case Receive(s) => q + s
  }

  /** The longest the queue ever was. */
  function Peak(ops: seq<Op>): nat {
    if ops == [] then 0 else
      var p, n := Peak(ops[..|ops| - 1]), |QueueRun(ops)|;
      if p < n then n else p
  }

  /**
   For every sequence of operations the readable bytes are those of the queue, the indices stay
   in order, and the vector never outgrows the larger of its first size and twice the peak.
   */
  lemma {:induction false} BufferRefinesQueue(initialSize: nat, ops: seq<Op>)
    ensures var b := Run(Fresh(initialSize), ops);
      && b.data == QueueRun(ops)
      && CHEAP_PREPEND <= b.reader <= b.writer <= b.size && |b.data| == b.writer - b.reader
      && (b.size <= CHEAP_PREPEND + initialSize || b.size <= CHEAP_PREPEND + 2 * Peak(ops))
    decreases |ops|
  {
    if ops != [] {
      BufferRefinesQueue(initialSize, ops[..|ops| - 1]);
      var b := Run(Fresh(initialSize), ops[..|ops| - 1]);
      var op := ops[|ops| - 1];
      if op.Receive? && |op.s| > b.Writable() {
        assert b.data + op.s == b.data + op.s[..b.Writable()] + op.s[b.Writable()..];
      }
    }
  }
}
