/**
 The decode substrate of src/property.cc: the payload cursor and the pool of value
 objects that is reused from packet to packet.  What a packet sees of the pool is
 `Retained`: the objects handed out since `Init`, per parameter and in order.
 */
module Pool {
  import opened Common

  /** Payload: a cursor over a packet, whose end may be pulled in by `Shrink`. */
  class Payload {
    var bytes: seq<byte>
    var ptr: nat
    var length: nat

    ghost predicate Valid()
      reads this
    {
      ptr + length <= |bytes|
    }

    /** What can still be read. */
    ghost function Rest(): seq<byte>
      reads this
      requires Valid()
    {
      bytes[ptr..ptr + length]
    }

    constructor (packet: seq<byte>)
      ensures Valid() && bytes == packet && ptr == 0 && Rest() == packet
    {
      bytes, ptr, length := packet, 0, |packet|;
    }

    /** Slices are handed out one after the other; a slice that does not fit moves nothing. */
    method Retain(size: nat) returns (p: Option<nat>)
      requires Valid()
      modifies this`ptr, this`length
      ensures Valid()
      ensures p.Some? <==> size <= old(length)
      ensures p.Some? ==>
                && p.value == old(ptr) && ptr == p.value + size
                && bytes[p.value..ptr] == old(Rest())[..size] && Rest() == old(Rest())[size..]
      ensures p.None? ==> ptr == old(ptr) && length == old(length)
    {
      var n := ptr + size;
      if size <= length && n <= |bytes| {
        p := Some(ptr);
        length := length - size;
        ptr := n;
      } else {
        p := None;
      }
    }

    method Shrink(size: nat) returns (ok: bool)
      requires Valid()
      modifies this`length
      ensures Valid() && (ok <==> size <= old(length))
      ensures Rest() == if ok then old(Rest())[..size] else old(Rest())
    {
      if size > length {
        return false;
      }
      length := size;
      assert bytes[ptr..ptr + size] == old(Rest())[..size];
      return true;
    }
  }

  /** A step of a module on its payload: retain a slice, or pull the end in. */
  datatype Move = Take(size: nat) | Cut(size: nat)

  /** The slices a run of moves hands out of the bytes that can be read. */
  function Taken(rest: seq<byte>, moves: seq<Move>): seq<seq<byte>>
    decreases |moves|
  {
    if moves == [] then []
    else if moves[0].size > |rest| then Taken(rest, moves[1..])
    else
      var n := moves[0].size;
      if moves[0].Cut? then Taken(rest[..n], moves[1..]) else [rest[..n]] + Taken(rest[n..], moves[1..])
  }

  function Concat(slices: seq<seq<byte>>): seq<byte> {
    if slices == [] then [] else slices[0] + Concat(slices[1..])
  }

  /** Over any run of moves the slices follow each other and make up a prefix of the packet. */
  lemma {:induction false} TakenInOrder(rest: seq<byte>, moves: seq<Move>)
    ensures Concat(Taken(rest, moves)) <= rest
    decreases |moves|
  {
    if moves != [] && moves[0].size > |rest| {
      TakenInOrder(rest, moves[1..]);
    } else if moves != [] {
      var n := moves[0].size;
      if moves[0].Cut? {
        TakenInOrder(rest[..n], moves[1..]);
      } else {
        TakenInOrder(rest[n..], moves[1..]);
        var later := Taken(rest[n..], moves[1..]);
        assert ([rest[..n]] + later)[1..] == later;
        assert rest == rest[..n] + rest[n..];
      }
    }
  }

  /** A run of moves on a payload hands out those slices. */
  method MoveAll(packet: seq<byte>, moves: seq<Move>) returns (slices: seq<seq<byte>>)
    ensures slices == Taken(packet, moves) && Concat(slices) <= packet
  {
    hide Concat;
    var pd := new Payload(packet);
    slices := [];
    for i := 0 to |moves|
      invariant pd.Valid() && pd.bytes == packet && slices + Taken(pd.Rest(), moves[i..]) == Taken(packet, moves)
    {
      assert moves[i..][1..] == moves[i + 1..];
      match moves[i]
      case Cut(n) =>
        var _ := pd.Shrink(n);
      case Take(n) =>
        var p := pd.Retain(n);
        if p.Some? {
          slices := slices + [packet[p.value..p.value + n]];
        }
    }
    assert moves[|moves|..] == [];
    TakenInOrder(packet, moves);
  }

  /** A value object.  `minors` is the storage for fields read lazily from `raw`; clearing keeps it. */
  class Value {
    var active: bool
    var raw: seq<byte>
    var items: seq<Value>
    var minors: seq<seq<byte>>

    constructor ()
      ensures !active && items == [] && minors == []
    {
      active, raw, items, minors := false, [], [], [];
    }

    method Clear()
      modifies this`active, this`items
      ensures !active && items == []
    {
      active, items := false, [];
    }

    method Set(data: seq<byte>)
      modifies this`active, this`raw
      ensures active && raw == data
    {
      active, raw := true, data;
    }
  }

  class Property {
    /** How many minor fields each parameter defines. */
    const minorSize: nat -> nat
    var params: seq<seq<Value>>
    var idx: seq<nat>

    /** No object is pooled twice. */
    ghost predicate Shape()
      reads this
    {
      && |params| == |idx|
      && (forall i :: 0 <= i < |idx| ==> idx[i] <= |params[i]|)
      && (forall i, j, k, l ::
            0 <= i < |params| && 0 <= j < |params[i]| && 0 <= k < |params| && 0 <= l < |params[k]| ==>
            params[i][j] == params[k][l] ==> i == k && j == l)
    }

    /** The storage of every object is unused or sized for its parameter. */
    ghost predicate Storage()
      reads this, Objects()
    {
      forall i, j :: 0 <= i < |params| && 0 <= j < |params[i]| ==>
        params[i][j].minors == [] || |params[i][j].minors| == minorSize(i)
    }

    ghost predicate Valid()
      reads this, Objects()
    {
      Shape() && Storage()
    }

    /** Every object of the pool. */
    ghost function Objects(): set<Value>
      reads this
    {
      set i, j | 0 <= i < |params| && 0 <= j < |params[i]| :: params[i][j]
    }

    /** The objects handed out for a parameter in the current packet. */
    ghost function Retained(pid: nat): seq<Value>
      reads this
      requires Shape()
    {
      if pid < |params| then params[pid][..idx[pid]] else []
    }

    lemma RetainedInPool()
      requires Shape()
      ensures forall q: nat, v :: v in Retained(q) ==> v in Objects()
    {
    }

    /** No object is handed out twice in a packet. */
    lemma RetainedOnce(p: nat, i: nat, q: nat, j: nat)
      requires Shape() && i < |Retained(p)| && j < |Retained(q)|
      ensures Retained(p)[i] == Retained(q)[j] <==> p == q && i == j
    {
    }

    constructor (minorSize: nat -> nat)
      ensures Valid() && Objects() == {} && forall pid: nat :: Retained(pid) == []
      ensures this.minorSize == minorSize
    {
      this.minorSize := minorSize;
      params, idx := [], [];
    }

    /** A new packet starts with nothing retained; no object is touched. */
    method Init()
      requires Valid()
      modifies this`idx
      ensures Valid() && Objects() == old(Objects()) && forall pid: nat :: Retained(pid) == []
    {
      idx := seq(|idx|, _ => 0);
    }

    /** Property::retain_value, the part that makes the pool long enough. */
    method Grow(pid: nat)
      requires Valid()
      modifies this
      ensures Valid() && pid < |params| && |params| >= old(|params|) && Objects() == old(Objects())
      ensures forall q: nat :: Retained(q) == old(Retained(q))
    {
      while |params| <= pid
        invariant Valid() && |params| >= old(|params|) && Objects() == old(Objects())
        invariant forall q: nat :: Retained(q) == old(Retained(q))
        decreases pid - |params|
      {
        ghost var before, objects := params, Objects();
        params, idx := params + [[]], idx + [0];
        assert forall i :: 0 <= i < |before| ==> params[i] == before[i];
        assert forall v :: v in objects ==> v in Objects();
      }
    }

    /** The object at the next position of a parameter: the pooled one cleared, or a new one added. */
    method NextObject(pid: nat) returns (obj: Value)
      requires Valid() && pid < |params|
      modifies this`params, Objects()
      ensures Valid() && |params| == old(|params|)
      ensures idx[pid] < |params[pid]| && params[pid][idx[pid]] == obj
      ensures forall q :: 0 <= q < |params| ==> old(params[q]) <= params[q]
      ensures forall v :: v in old(Objects()) && v != obj ==> unchanged(v)
      ensures !obj.active && obj.items == []
      ensures Objects() == old(Objects()) + {obj} && (obj in old(Objects()) || fresh(obj))
    {
      var k := idx[pid];
      if k < |params[pid]| {
        obj := params[pid][k];
        obj.Clear();
      } else {
        ghost var before := params;
        obj := new Value();
        params := params[pid := params[pid] + [obj]];
        assert params[pid][k] == obj;
        assert forall i, j :: 0 <= i < |before| && 0 <= j < |before[i]| ==> params[i][j] == before[i][j];
      }
    }

    /** The rest of Property::retain_value: take the next object and count it. */
    method HandOut(pid: nat) returns (obj: Value)
      requires Valid() && pid < |params|
      modifies this, Objects()
      ensures Valid() && |params| == old(|params|)
      ensures Retained(pid) == old(Retained(pid)) + [obj]
      ensures forall q: nat :: q != pid ==> Retained(q) == old(Retained(q))
      ensures forall q: nat :: obj !in old(Retained(q))
      ensures forall v :: v in old(Objects()) && v != obj ==> unchanged(v)
      ensures !obj.active && obj.items == []
      ensures Objects() == old(Objects()) + {obj} && (obj in old(Objects()) || fresh(obj))
    {
      obj := NextObject(pid);
      var k := idx[pid];
      assert params[pid][..k] == old(params[pid])[..k];
      assert forall q: nat :: obj !in old(Retained(q)) by {
        assert forall q: nat :: q < |params| ==> old(params[q])[..idx[q]] == params[q][..idx[q]];
      }
      idx := idx[pid := k + 1];
      assert params[pid][..k + 1] == params[pid][..k] + [obj];
    }

    /**
     The object returned is clean and was not handed out before in this packet, whether it
     comes from the pool or is new; nothing handed out before changes.
     */
    method RetainValue(pid: nat) returns (obj: Value)
      requires Valid()
      modifies this, Objects()
      ensures Valid()
      ensures Retained(pid) == old(Retained(pid)) + [obj]
      ensures forall q: nat :: q != pid ==> Retained(q) == old(Retained(q))
      ensures forall q: nat, v :: v in old(Retained(q)) ==> v != obj && v in Retained(q) && unchanged(v)
      ensures !obj.active && obj.items == [] && |params| >= old(|params|)
      ensures Objects() == old(Objects()) + {obj} && (obj in old(Objects()) || fresh(obj))
    {
      Grow(pid);
      RetainedInPool();
      obj := HandOut(pid);
    }

    /** Property::value for a plain parameter: the first value retained in this packet, or null. */
    method First(pid: nat) returns (v: Value?)
      requires Valid() && pid < |params|
      ensures v == if Retained(pid) == [] then null else Retained(pid)[0]
    {
      if idx[pid] > 0 {
        v := params[pid][0];
      } else {
        v := null;
      }
    }

    /**
     Property::value for a minor parameter: its reader is applied to the header stored in this
     packet, so nothing left in the storage by an earlier packet is ever seen.
     */
    method Minor(pid: nat, minor: nat, defer: seq<byte> -> seq<byte>) returns (r: Option<seq<byte>>)
      requires Valid() && pid < |params| && minor < minorSize(pid)
      modifies Objects()`minors
      ensures Valid() && (forall q: nat :: Retained(q) == old(Retained(q)))
      ensures params == old(params) && idx == old(idx)
      ensures r == if Retained(pid) == [] then None else Some(defer(Retained(pid)[0].raw))
    {
      var v := First(pid);
      if v == null {
        return None;
      }
      assert v == params[pid][0] && v in Objects();
      if |v.minors| == 0 {
        v.minors := seq(minorSize(pid), _ => []);
      }
      v.minors := v.minors[minor := defer(v.raw)];
      return Some(v.minors[minor]);
    }
  }

  /** A value stored while decoding a packet. */
  datatype Put = Put(pid: nat, data: seq<byte>)

  /** What a map made afresh for the packet would hold for a parameter. */
  function Wanted(puts: seq<Put>, pid: nat): seq<seq<byte>> {
    if puts == [] then []
    else
      var n := |puts| - 1;
      Wanted(puts[..n], pid) + (if puts[n].pid == pid then [puts[n].data] else [])
  }

  ghost predicate Shows(vs: seq<Value>, want: seq<seq<byte>>)
    reads vs
  {
    |vs| == |want| && forall i :: 0 <= i < |vs| ==> vs[i].active && vs[i].raw == want[i]
  }

  /**
   The pool is a cache: after any packets before, what a packet reads back is what a fresh
   map would hold, all values of every parameter in order.
   */
  method FillPacket(prop: Property, puts: seq<Put>)
    requires prop.Valid()
    modifies prop, prop.Objects()
    ensures prop.Valid() && forall pid: nat :: Shows(prop.Retained(pid), Wanted(puts, pid))
    ensures forall v :: v in prop.Objects() ==> v in old(prop.Objects()) || fresh(v)
    ensures |prop.params| >= old(|prop.params|)
  {
    hide Property.Retained, Property.Shape, Property.Objects;
    prop.Init();
    assert puts[..0] == [];
    for i := 0 to |puts|
      invariant prop.Valid() && |prop.params| >= old(|prop.params|)
      invariant forall q: nat :: Shows(prop.Retained(q), Wanted(puts[..i], q))
      invariant forall v :: v in prop.Objects() ==> v in old(prop.Objects()) || fresh(v)
    {
      StorePut(prop, puts[i], puts[..i]);
      assert puts[..i] + [puts[i]] == puts[..i + 1];
    }
    assert puts[..|puts|] == puts;
  }

  /** The minor field a packet shows: its reader on the first header the packet stored, if any. */
  function FieldOf(puts: seq<Put>, pid: nat, defer: seq<byte> -> seq<byte>): Option<seq<byte>> {
    if Wanted(puts, pid) == [] then None else Some(defer(Wanted(puts, pid)[0]))
  }

  /**
   Over any run of packets through one pool, a lazily read field is always the one of the packet
   it is read in, although the storage it is read through is kept from packet to packet.
   */
  method ReadFields(prop: Property, packets: seq<seq<Put>>, pid: nat, minor: nat, defer: seq<byte> -> seq<byte>)
    returns (fields: seq<Option<seq<byte>>>)
    requires prop.Valid() && pid < |prop.params| && minor < prop.minorSize(pid)
    modifies prop, prop.Objects()
    ensures prop.Valid() && |fields| == |packets|
    ensures forall i :: 0 <= i < |packets| ==> fields[i] == FieldOf(packets[i], pid, defer)
  {
    hide Property.Shape, Property.Objects, Wanted, Property.Retained;
    fields := [];
    for i := 0 to |packets|
      invariant prop.Valid() && pid < |prop.params| && |fields| == i
      invariant forall v :: v in prop.Objects() ==> v in old(prop.Objects()) || fresh(v)
      invariant forall k :: 0 <= k < i ==> fields[k] == FieldOf(packets[k], pid, defer)
    {
      FillPacket(prop, packets[i]);
      assert Shows(prop.Retained(pid), Wanted(packets[i], pid));
      var f := prop.Minor(pid, minor, defer);
      fields := fields + [f];
    }
  }

  method StorePut(prop: Property, p: Put, ghost before: seq<Put>)
    requires prop.Valid()
    requires forall q: nat :: Shows(prop.Retained(q), Wanted(before, q))
    modifies prop, prop.Objects()
    ensures prop.Valid()
    ensures |prop.params| >= old(|prop.params|)
    ensures forall q: nat :: Shows(prop.Retained(q), Wanted(before + [p], q))
    ensures forall v :: v in prop.Objects() ==> v in old(prop.Objects()) || fresh(v)
  {
    hide Property.Retained, Property.Shape, Property.Objects;
    var v := prop.RetainValue(p.pid);
    v.Set(p.data);
    assert (before + [p])[..|before|] == before;
    forall q: nat
      ensures Shows(prop.Retained(q), Wanted(before + [p], q))
    {
      assert old(Shows(prop.Retained(q), Wanted(before, q)));
      assert forall i :: 0 <= i < |old(prop.Retained(q))| ==> old(prop.Retained(q))[i] in old(prop.Retained(q));
    }
  }
}
