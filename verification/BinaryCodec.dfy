/**
 binarySerialize and binaryDeserialize: structural recursion over nested property lists whose
 leaves are the bytes of fundamental values, on a memory stream.
 */
module BinaryCodec {
  import opened Bytes
  import opened CircularBuffer
  import opened MemoryStream

  /** An object is its properties in order; a leaf is the memory of a fundamental value. */
  datatype Value = Leaf(bytes: seq<byte>) | Object(props: Props)
  datatype Props = End | Prop(head: Value, tail: Props)

  function Encode(v: Value): seq<byte> {
    match v
    case Leaf(bytes) => bytes
    case Object(props) => EncodeProps(props)
  }

  function EncodeProps(props: Props): seq<byte> {
    match props
    case End => []
    case Prop(head, tail) => Encode(head) + EncodeProps(tail)
  }

  /** Two values of one C++ type: the same nesting and leaf sizes. */
  predicate SameType(v: Value, w: Value) {
    match v
    case Leaf(bytes) => w.Leaf? && |w.bytes| == |bytes|
    case Object(props) => w.Object? && SamePropTypes(props, w.props)
  }

  predicate SamePropTypes(p: Props, q: Props) {
    match p
    case End => q.End?
    case Prop(head, tail) => q.Prop? && SameType(head, q.head) && SamePropTypes(tail, q.tail)
  }

  /** Leaf by leaf, as the properties are visited. */
  function PutValue(st: View, v: Value): (st': View)
    requires st.Valid()
    ensures st'.Valid()
    decreases v
  {
    match v
    case Leaf(bytes) => Put(st, bytes)
    case Object(props) => PutProps(st, props)
  }

  function PutProps(st: View, props: Props): (st': View)
    requires st.Valid()
    ensures st'.Valid()
    decreases props
  {
    match props
    case End => st
    case Prop(head, tail) => PutProps(PutValue(st, head), tail)
  }

  function TakeValue(st: View, target: Value): (r: (Value, View))
    requires st.Valid()
    ensures r.1.Valid()
    decreases target
  {
    match target
    case Leaf(bytes) => var (x, st') := Take(st, bytes); (Leaf(x), st')
    case Object(props) => var (ps, st') := TakeProps(st, props); (Object(ps), st')
  }

  function TakeProps(st: View, target: Props): (r: (Props, View))
    requires st.Valid()
    ensures r.1.Valid()
    decreases target
  {
    match target
    case End => (End, st)
    case Prop(head, tail) =>
      var (x, st1) := TakeValue(st, head);
      var (xs, st2) := TakeProps(st1, tail);
      (Prop(x, xs), st2)
  }

  /** Serializing leaf by leaf is one write of the whole encoding, however short the buffer is. */
  lemma {:induction false} PutValueIsOneWrite(st: View, v: Value)
    requires st.Valid()
    ensures PutValue(st, v) == Put(st, Encode(v))
    decreases v
  {
    if v.Object? {
      PutPropsIsOneWrite(st, v.props);
    }
  }

  lemma {:induction false} PutPropsIsOneWrite(st: View, props: Props)
    requires st.Valid()
    ensures PutProps(st, props) == Put(st, EncodeProps(props))
    decreases props
  {
    match props
    case End =>
      assert st.ok ==> st.buf[..st.pos] + [] + st.buf[st.pos..] == st.buf;
    case Prop(head, tail) =>
      PutValueIsOneWrite(st, head);
      PutPropsIsOneWrite(PutValue(st, head), tail);
      PutPut(st, Encode(head), EncodeProps(tail));
  }

  /** Deserializing leaf by leaf is one read over the whole memory of the target. */
  lemma {:induction false} TakeValueIsOneRead(st: View, target: Value)
    requires st.Valid()
    ensures var (v, st') := TakeValue(st, target);
            SameType(target, v) && (Encode(v), st') == Take(st, Encode(target))
    decreases target
  {
    if target.Object? {
      TakePropsIsOneRead(st, target.props);
    }
  }

  lemma {:induction false} TakePropsIsOneRead(st: View, target: Props)
    requires st.Valid()
    ensures var (ps, st') := TakeProps(st, target);
            SamePropTypes(target, ps) && (EncodeProps(ps), st') == Take(st, EncodeProps(target))
    decreases target
  {
    match target
    case End =>
      assert st.buf[st.pos..st.pos] + [] == [];
    case Prop(head, tail) =>
      TakeValueIsOneRead(st, head);
      TakePropsIsOneRead(TakeValue(st, head).1, tail);
      TakeTake(st, Encode(head), EncodeProps(tail));
  }

  lemma {:induction false} EncodeLength(v: Value, w: Value)
    requires SameType(v, w)
    ensures |Encode(v)| == |Encode(w)|
    decreases v
  {
    if v.Object? {
      EncodePropsLength(v.props, w.props);
    }
  }

  lemma {:induction false} EncodePropsLength(p: Props, q: Props)
    requires SamePropTypes(p, q)
    ensures |EncodeProps(p)| == |EncodeProps(q)|
    decreases p
  {
    if p.Prop? {
      EncodeLength(p.head, q.head);
      EncodePropsLength(p.tail, q.tail);
    }
  }

  /** Within one type the bytes determine the value. */
  lemma {:induction false} EncodeInjective(v: Value, w: Value)
    requires SameType(v, w) && Encode(v) == Encode(w)
    ensures v == w
    decreases v
  {
    if v.Object? {
      EncodePropsInjective(v.props, w.props);
    }
  }

  lemma {:induction false} EncodePropsInjective(p: Props, q: Props)
    requires SamePropTypes(p, q) && EncodeProps(p) == EncodeProps(q)
    ensures p == q
    decreases p
  {
    if p.Prop? {
      EncodeLength(p.head, q.head);
      var n := |Encode(p.head)|;
      assert Encode(p.head) == EncodeProps(p)[..n] && Encode(q.head) == EncodeProps(q)[..n];
      assert EncodeProps(p.tail) == EncodeProps(p)[n..] && EncodeProps(q.tail) == EncodeProps(q)[n..];
      EncodeInjective(p.head, q.head);
      EncodePropsInjective(p.tail, q.tail);
    }
  }

  lemma SameTypeTransitive(u: Value, v: Value, w: Value)
    requires SameType(u, v) && SameType(u, w)
    ensures SameType(v, w)
    decreases u
  {
    if u.Object? {
      SamePropTypesTransitive(u.props, v.props, w.props);
    }
  }

  lemma SamePropTypesTransitive(p: Props, q: Props, r: Props)
    requires SamePropTypes(p, q) && SamePropTypes(p, r)
    ensures SamePropTypes(q, r)
    decreases p
  {
    if p.Prop? {
      SameTypeTransitive(p.head, q.head, r.head);
      SamePropTypesTransitive(p.tail, q.tail, r.tail);
    }
  }

  /**
   Whatever the buffer's size, serialize leaves exactly the first |buf| bytes of the encoding in
   it, or all of it with the rest untouched; it succeeds iff the encoding fits.
   */
  lemma SerializeFillsBuffer(buf: seq<byte>, v: Value)
    ensures var e := Encode(v); var st := PutValue(View(buf, 0, true), v);
            && st.buf == (if |e| <= |buf| then e + buf[|e|..] else e[..|buf|])
            && (st.ok <==> |e| <= |buf|)
            && st.pos == Min(|e|, |buf|)
  {
    PutValueIsOneWrite(View(buf, 0, true), v);
  }

  /**
   Deserialize after serialize gives back the value, into any old object of the type, and both
   stop at the same position, whenever the encoding fits the buffer.
   */
  lemma RoundTrip(buf: seq<byte>, v: Value, target: Value)
    requires |Encode(v)| <= |buf| && SameType(v, target)
    ensures var st := PutValue(View(buf, 0, true), v);
            TakeValue(View(st.buf, 0, true), target) == (v, View(st.buf, st.pos, true))
  {
    var st := PutValue(View(buf, 0, true), v);
    SerializeFillsBuffer(buf, v);
    TakeValueIsOneRead(View(st.buf, 0, true), target);
    EncodeLength(v, target);
    var (w, st') := TakeValue(View(st.buf, 0, true), target);
    assert Encode(w) == Encode(v);
    SameTypeTransitive(target, w, v) by {
      SameTypeSymmetric(v, target);
    }
    EncodeInjective(w, v);
  }

  lemma SameTypeSymmetric(v: Value, w: Value)
    requires SameType(v, w)
    ensures SameType(w, v)
    decreases v
  {
    if v.Object? {
      SamePropTypesSymmetric(v.props, w.props);
    }
  }

  lemma SamePropTypesSymmetric(p: Props, q: Props)
    requires SamePropTypes(p, q)
    ensures SamePropTypes(q, p)
    decreases p
  {
    if p.Prop? {
      SameTypeSymmetric(p.head, q.head);
      SamePropTypesSymmetric(p.tail, q.tail);
    }
  }

  /**
   Deserializing a cut-off encoding: the bytes that arrived overwrite the front of the target's
   memory, the rest of the target keeps its old value, and the stream has failed.
   */
  lemma TruncatedInput(v: Value, target: Value, m: nat)
    requires m < |Encode(v)| && SameType(v, target)
    ensures |Encode(v)| == |Encode(target)|
    ensures var (w, st) := TakeValue(View(Encode(v)[..m], 0, true), target);
            && SameType(target, w) && !st.ok && st.pos == m
            && Encode(w) == Encode(v)[..m] + Encode(target)[m..]
  {
    EncodeLength(v, target);
    TakeValueIsOneRead(View(Encode(v)[..m], 0, true), target);
  }

  // ----- the recursion on the stream objects -----

  method BinarySerialize(v: Value, out: MemoryStreamBuf)
    requires out.Valid()
    modifies out`pos, out`ok, out.buffer
    ensures out.Valid() && out.Value() == PutValue(old(out.Value()), v)
    decreases v
  {
    match v
    case Leaf(bytes) => out.Write(bytes);
    case Object(props) => SerializeProps(props, out);
  }

  method SerializeProps(props: Props, out: MemoryStreamBuf)
    requires out.Valid()
    modifies out`pos, out`ok, out.buffer
    ensures out.Valid() && out.Value() == PutProps(old(out.Value()), props)
    decreases props
  {
    match props
    case End =>
    case Prop(head, tail) =>
      BinarySerialize(head, out);
      SerializeProps(tail, out);
  }

  method BinaryDeserialize(target: Value, input: MemoryStreamBuf) returns (v: Value)
    requires input.Valid()
    modifies input`pos, input`ok
    ensures input.Valid() && (v, input.Value()) == TakeValue(old(input.Value()), target)
    decreases target
  {
    match target
    case Leaf(bytes) =>
      var memory := new byte[|bytes|](i requires 0 <= i < |bytes| => bytes[i]);
      assert memory[..] == bytes;
      input.Read(memory);
      v := Leaf(memory[..]);
    case Object(props) =>
      var ps := DeserializeProps(props, input);
      v := Object(ps);
  }

  method DeserializeProps(target: Props, input: MemoryStreamBuf) returns (ps: Props)
    requires input.Valid()
    modifies input`pos, input`ok
    ensures input.Valid() && (ps, input.Value()) == TakeProps(old(input.Value()), target)
    decreases target
  {
    match target
    case End => ps := End;
    case Prop(head, tail) =>
      var x := BinaryDeserialize(head, input);
      var xs := DeserializeProps(tail, input);
      ps := Prop(x, xs);
  }

  /** binarySerialize(object, buffer, bufferSize). */
  method SerializeToBuffer(v: Value, buffer: array<byte>) returns (size: nat)
    modifies buffer
    ensures var e := Encode(v);
            if |e| <= buffer.Length then size == |e| && buffer[..] == e + old(buffer[|e|..])
            else size == WORD - 1 && buffer[..] == e[..buffer.Length]
  {
    var out := new MemoryStreamBuf(buffer);
    SerializeFillsBuffer(buffer[..], v);
    BinarySerialize(v, out);
    size := out.Tell();
  }
}
