/**
 Copy-on-write byte arrays (src/ADT/SharedArray.cpp).  Copying a large array turns its contents into a
 shared node, and both copies record their later changes on top of it; nodes are never written again.
 Seen from outside, every array is a plain array of its own.
 */
module SharedArrays {

  newtype byte = b: int | 0 <= b < 256

  /** Up to this size contents are copied instead of shared. */
  const MIN_COPY_SIZE := 64

  /** `std::variant<std::vector<char>, Modified>`. */
  datatype Variant = Flat(bytes: seq<byte>) | Modified(node: Node, changes: map<nat, byte>)

  /** A sequence with some positions replaced. */
  function Overlay(bytes: seq<byte>, changes: map<nat, byte>): (r: seq<byte>)
    ensures |r| == |bytes|
  {
    seq(|bytes|, i requires 0 <= i < |bytes| => if i in changes then changes[i] else bytes[i])
  }

  /** A shared variant. */
  class Node {
    var variant: Variant
    ghost var depth: nat
    ghost var repr: set<Node>

    ghost predicate Valid()
      reads this, repr
      decreases depth
    {
      && this in repr
      && (variant.Modified? ==>
            && variant.node in repr && variant.node.repr <= repr && this !in variant.node.repr
            && variant.node.depth < depth && variant.node.Valid())
    }

    ghost function Bytes(): seq<byte>
      requires Valid()
      reads this, repr
      decreases depth
    {
      if variant.Flat? then variant.bytes else Overlay(variant.node.Bytes(), variant.changes)
    }

    constructor (v: Variant)
      requires VariantOk(v)
      ensures Valid() && fresh(this) && repr == {this} + (if v.Modified? then v.node.repr else {})
      ensures Bytes() == VariantBytes(v)
    {
      variant := v;
      depth := if v.Modified? then v.node.depth + 1 else 0;
      repr := {this} + (if v.Modified? then v.node.repr else {});
    }

    /** `Modified::operator[]`: walk down the chain to the first node that knows the index. */
    method Lookup(idx: nat) returns (value: byte)
      requires Valid() && idx < |Bytes()|
      ensures value == Bytes()[idx]
    {
      var current := this;
      while true
        invariant current.Valid() && idx < |current.Bytes()| && current.Bytes()[idx] == Bytes()[idx]
        decreases current.depth
      {
        match current.variant
        case Flat(bytes) => return bytes[idx];
        case Modified(node, changes) =>
          if idx in changes { return changes[idx]; }
          current := node;
      }
    }
  }

  ghost predicate VariantOk(v: Variant)
    reads if v.Modified? then v.node.repr + {v.node} else {}
  {
    v.Modified? ==> v.node.Valid()
  }

  ghost function VariantBytes(v: Variant): seq<byte>
    requires VariantOk(v)
    reads if v.Modified? then v.node.repr + {v.node} else {}
  {
    if v.Flat? then v.bytes else Overlay(v.node.Bytes(), v.changes)
  }

  class SharedArray {
    var data: Variant
    var modcnt: nat
    var size: nat

    /** The shared nodes below. */
    ghost function Nodes(): set<Node>
      reads this, (if data.Modified? then {data.node} else {})
    {
      if data.Modified? then data.node.repr + {data.node} else {}
    }

    ghost predicate Valid()
      reads this, Nodes()
    {
      VariantOk(data) && size == |VariantBytes(data)|
    }

    /** The plain array this stands for. */
    ghost function Contents(): (bytes: seq<byte>)
      requires Valid()
      reads this, Nodes()
      ensures |bytes| == size
    {
      VariantBytes(data)
    }

    constructor (bytes: seq<byte>)
      ensures Valid() && Contents() == bytes
    {
      data, modcnt, size := Flat(bytes), 0, |bytes|;
    }

    method Load(idx: nat) returns (value: byte)
      requires Valid() && idx < size
      ensures value == Contents()[idx]
    {
      match data
      case Flat(bytes) => value := bytes[idx];
      case Modified(node, changes) =>
        if idx in changes { value := changes[idx]; } else { value := node.Lookup(idx); }
    }

    method Store(idx: nat, value: byte)
      requires Valid() && idx < size
      modifies this
      ensures Valid() && Contents() == old(Contents())[idx := value]
    {
      match data
      case Flat(bytes) =>
        data := Flat(bytes[idx := value]);
      case Modified(node, changes) =>
        if idx !in changes {
          var current := Load(idx);
          if current == value {
            assert Contents()[idx := value] == Contents();
            return;
          }
          modcnt := modcnt + 1;
        }
        data := Modified(node, changes[idx := value]);
        assert Contents() == old(Contents())[idx := value];
        if idx !in changes && modcnt * 5 > size * 4 {
          Flatten();
        }
    }

    method Flatten()
      requires Valid()
      modifies this
      ensures Valid() && Contents() == old(Contents()) && data.Flat? && size == old(size)
    {
      if data.Flat? { return; }
      var bytes: seq<byte> := [];
      for i := 0 to size
        invariant unchanged(this) && Valid() && |bytes| == i && bytes == Contents()[..i]
      {
        var value := Load(i);
        bytes := bytes + [value];
      }
      data := Flat(bytes);
    }

    /** Copy assignment; the source is turned into a shared array if it is large. */
    method CopyFrom(source: SharedArray)
      requires Valid() && source.Valid()
      modifies this, source
      ensures Valid() && source.Valid()
      ensures Contents() == old(source.Contents()) && source.Contents() == old(source.Contents())
    {
      var small := match source.data case Flat(bytes) => |bytes| <= MIN_COPY_SIZE case Modified(_, changes) => |changes| <= MIN_COPY_SIZE;
      if small {
        data := source.data;
      } else {
        var node := new Node(source.data);
        assert Overlay(node.Bytes(), map[]) == node.Bytes();
        source.data := Modified(node, map[]);
        data := Modified(node, map[]);
      }
      modcnt := source.modcnt;
      size := source.size;
    }

    /** Move assignment: an array moved onto itself ends up empty. */
    method MoveFrom(source: SharedArray)
      requires Valid() && source.Valid()
      modifies this, source
      ensures Valid() && source.Valid() && source.Contents() == []
      ensures Contents() == if this == source then [] else old(source.Contents())
    {
      data := source.data;
      size := source.size;
      modcnt := source.modcnt;
      source.data := Flat([]);
      source.size := 0;
      source.modcnt := 0;
    }
  }

  // ----- any number of arrays -----

  /** One operation on a pool of arrays. */
  datatype Op =
    | StoreOp(i: nat, idx: nat, value: byte)
    | CopyOp(to: nat, from: nat)
    | MoveOp(to: nat, from: nat)
    | FlattenOp(i: nat)

  /** What the source asserts of an operation, on plain arrays. */
  predicate Allowed(view: seq<seq<byte>>, op: Op) {
    match op
    case StoreOp(i, idx, _) => i < |view| && idx < |view[i]|
    case CopyOp(to, from) => to < |view| && from < |view|
    case MoveOp(to, from) => to < |view| && from < |view|
    case FlattenOp(i) => i < |view|
  }

  /** The operation on plain, independent arrays. */
  function Plain(view: seq<seq<byte>>, op: Op): (view': seq<seq<byte>>)
    requires Allowed(view, op)
    ensures |view'| == |view|
  {
    match op
    case StoreOp(i, idx, value) => view[i := view[i][idx := value]]
    case CopyOp(to, from) => view[to := view[from]]
    case MoveOp(to, from) => view[to := view[from]][from := []]
    case FlattenOp(_) => view
  }

  predicate AllAllowed(view: seq<seq<byte>>, ops: seq<Op>)
    decreases |ops|
  {
    ops == [] || (Allowed(view, ops[0]) && AllAllowed(Plain(view, ops[0]), ops[1..]))
  }

  function PlainRun(view: seq<seq<byte>>, ops: seq<Op>): (view': seq<seq<byte>>)
    requires AllAllowed(view, ops)
    ensures |view'| == |view|
    decreases |ops|
  {
    if ops == [] then view else PlainRun(Plain(view, ops[0]), ops[1..])
  }

  method Step(pool: seq<SharedArray>, op: Op, ghost view: seq<seq<byte>>)
    requires |pool| == |view| && forall i, j :: 0 <= i < j < |pool| ==> pool[i] != pool[j]
    requires forall i :: 0 <= i < |pool| ==> pool[i].Valid() && pool[i].Contents() == view[i]
    requires Allowed(view, op)
    modifies pool
    ensures forall i :: 0 <= i < |pool| ==> pool[i].Valid() && pool[i].Contents() == Plain(view, op)[i]
  {
    match op
    case StoreOp(i, idx, value) => pool[i].Store(idx, value);
    case CopyOp(to, from) => pool[to].CopyFrom(pool[from]);
    case MoveOp(to, from) => pool[to].MoveFrom(pool[from]);
    case FlattenOp(i) => pool[i].Flatten();
  }

  /**
   The refinement: after any sequence of stores, copies, moves and flattens on any number of arrays,
   each array holds what the same operations would leave in a plain array of its own.
   */
  method Run(pool: seq<SharedArray>, ops: seq<Op>, ghost view: seq<seq<byte>>)
    requires |pool| == |view| && forall i, j :: 0 <= i < j < |pool| ==> pool[i] != pool[j]
    requires forall i :: 0 <= i < |pool| ==> pool[i].Valid() && pool[i].Contents() == view[i]
    requires AllAllowed(view, ops)
    modifies pool
    ensures forall i :: 0 <= i < |pool| ==> pool[i].Valid() && pool[i].Contents() == PlainRun(view, ops)[i]
  {
    ghost var current := view;
    for k := 0 to |ops|
      invariant |current| == |pool| && AllAllowed(current, ops[k..]) && PlainRun(current, ops[k..]) == PlainRun(view, ops)
      invariant forall i :: 0 <= i < |pool| ==> pool[i].Valid() && pool[i].Contents() == current[i]
    {
      assert ops[k..][0] == ops[k] && ops[k..][1..] == ops[k + 1..];
      Step(pool, ops[k], current);
      current := Plain(current, ops[k]);
    }
  }
}
