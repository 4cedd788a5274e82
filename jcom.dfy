/**
  The J-COM debug packer (pyro_jcom). Application code registers pointers
  to float arrays; each registration is a node {pointer, element count} and
  `_length` counts the registered floats. `update_data` packs a head word,
  whose bytes are 00 00 80 7F, followed by every registered float in
  registration order into a DMA array of `max_length` floats; `send` writes
  the first `(_length + 1) * 4` bytes of that array to the UART.

  A float is carried as its 32-bit pattern: the packer copies values and
  never computes with them. The memory behind the registered pointers is a
  parameter `read(pointer, index)`.
*/
module Jcom {
  import opened Wire

  /** The address of a registered float array. */
  type Ptr = nat

  /** data_node_t: a registered array and its element count. */
  datatype Node = Node(data: Ptr, size: nat)

  /** The head word, the float whose little-endian bytes are 00 00 80 7F. */
  const HEAD: bv32 := 0x7F80_0000

  /** The number of floats the nodes register. */
  function Total(nodes: seq<Node>): nat
  {
    if nodes == [] then 0 else nodes[0].size + Total(nodes[1..])
  }

  /** The values of one node, `data[0] .. data[size - 1]`. */
  function Values(n: Node, read: (Ptr, nat) -> bv32): (r: seq<bv32>)
    ensures |r| == n.size && forall i :: 0 <= i < n.size ==> r[i] == read(n.data, i)
  {
    seq(n.size, (i: int) requires 0 <= i => read(n.data, i))
  }

  /** Every node's values, in list order. */
  function Packed(nodes: seq<Node>, read: (Ptr, nat) -> bv32): (r: seq<bv32>)
    ensures |r| == Total(nodes)
  {
    if nodes == [] then [] else Values(nodes[0], read) + Packed(nodes[1..], read)
  }

  /** The float count of two lists of nodes adds up. */
  lemma {:induction false} TotalConcat(a: seq<Node>, b: seq<Node>)
    ensures Total(a + b) == Total(a) + Total(b)
  {
    if a != [] {
      assert (a + b)[0] == a[0] && (a + b)[1..] == a[1..] + b;
      TotalConcat(a[1..], b);
    } else {
      assert a + b == b;
    }
  }

  /** Packing two lists of nodes is packing each in turn. */
  lemma {:induction false} PackedConcat(a: seq<Node>, b: seq<Node>, read: (Ptr, nat) -> bv32)
    ensures Packed(a + b, read) == Packed(a, read) + Packed(b, read)
  {
    if a != [] {
      assert (a + b)[0] == a[0] && (a + b)[1..] == a[1..] + b;
      PackedConcat(a[1..], b, read);
    } else {
      assert a + b == b;
    }
  }

  /** The index of the first node registering `data`, or the length of the list. */
  function First(nodes: seq<Node>, data: Option<Ptr>): (k: nat)
    ensures k <= |nodes|
    ensures k < |nodes| ==> Some(nodes[k].data) == data
    ensures forall j :: 0 <= j < k ==> Some(nodes[j].data) != data
  {
    if nodes == [] then 0
    else if Some(nodes[0].data) == data then 0
    else 1 + First(nodes[1..], data)
  }

  /** The list after remove_data: the first node registering `data` is erased, if there is one. */
  function Removed(nodes: seq<Node>, data: Option<Ptr>): seq<Node>
  {
    var k := First(nodes, data);
    if k < |nodes| then nodes[..k] + nodes[k + 1..] else nodes
  }

  /**
    Removing a registration takes exactly that node's floats off the
    count, and only the first matching node goes: any later node
    registering the same pointer stays.
  */
  lemma RemovedTotal(nodes: seq<Node>, data: Option<Ptr>)
    ensures var k := First(nodes, data);
      && (k < |nodes| ==>
            Total(Removed(nodes, data)) + nodes[k].size == Total(nodes) && |Removed(nodes, data)| + 1 == |nodes|)
      && (k == |nodes| ==> Removed(nodes, data) == nodes)
  {
    var k := First(nodes, data);
    if k < |nodes| {
      assert nodes == nodes[..k] + ([nodes[k]] + nodes[k + 1..]);
      TotalConcat(nodes[..k], [nodes[k]] + nodes[k + 1..]);
      TotalConcat(nodes[..k], nodes[k + 1..]);
      assert ([nodes[k]] + nodes[k + 1..])[1..] == nodes[k + 1..];
    }
  }

  /** Registering a pointer and removing it again restores a list that did not register it. */
  lemma AddThenRemove(nodes: seq<Node>, data: Ptr, size: nat)
    requires First(nodes, Some(data)) == |nodes|
    ensures Removed(nodes + [Node(data, size)], Some(data)) == nodes
  {
    var ns := nodes + [Node(data, size)];
    assert forall j :: 0 <= j < |nodes| ==> ns[j] == nodes[j];
    assert ns[|nodes|] == Node(data, size);
    assert ns[..|nodes|] == nodes;
  }

  /** The four little-endian bytes of a word. */
  function WordBytes(w: bv32): (r: seq<byte>)
    ensures |r| == 4
  {
    [(w & 0xFF) as byte, ((w >> 8) & 0xFF) as byte, ((w >> 16) & 0xFF) as byte, ((w >> 24) & 0xFF) as byte]
  }

  /** The word stored in four little-endian bytes. */
  function WordOf(b: seq<byte>): bv32
    requires |b| == 4
  {
    (b[0] as bv32) | ((b[1] as bv32) << 8) | ((b[2] as bv32) << 16) | ((b[3] as bv32) << 24)
  }

  lemma WordRoundTrip(w: bv32)
    ensures WordOf(WordBytes(w)) == w
  {
  }

  /** The head word goes out as 00 00 80 7F. */
  lemma HeadBytes()
    ensures WordBytes(HEAD) == [0x00, 0x00, 0x80, 0x7F]
  {
  }

  /** The bytes of an array of floats as the UART sees them. */
  function Bytes(ws: seq<bv32>): (r: seq<byte>)
    ensures |r| == 4 * |ws|
  {
    if ws == [] then [] else WordBytes(ws[0]) + Bytes(ws[1..])
  }

  /** Byte 4i..4i+4 of the output are word i. */
  lemma {:induction false} BytesAt(ws: seq<bv32>, i: nat)
    requires i < |ws|
    ensures Bytes(ws)[4 * i .. 4 * i + 4] == WordBytes(ws[i])
  {
    if i > 0 {
      BytesAt(ws[1..], i - 1);
      assert Bytes(ws)[4 * i .. 4 * i + 4] == Bytes(ws[1..])[4 * (i - 1) .. 4 * (i - 1) + 4];
    }
  }

  /** The driver object. */
  class Driver {
    /** The `max_length` passed to the constructor. */
    const maxLength: nat
    /** `_data_pack`, `max_length` floats. */
    const pack: array<bv32>
    /** `_data_nodes` */
    var nodes: seq<Node>
    /** `_length` */
    var length: nat

    /** `_length` is the number of floats the nodes register. */
    ghost predicate Valid()
      reads this
    {
      pack.Length == maxLength && length == Total(nodes)
    }

    /** jcom_drv_t(max_length, uart): an array of max_length floats, no nodes. */
    constructor (max: u8)
      ensures Valid() && maxLength == max && fresh(pack)
      ensures nodes == [] && length == 0
    {
      maxLength := max;
      pack := new bv32[max];
      nodes := [];
      length := 0;
    }

    /** add_data(data): a null pointer changes nothing; otherwise {data, 1} is appended. */
    method AddData(data: Option<Ptr>)
      requires Valid()
      modifies this
      ensures Valid()
      ensures data.None? ==> nodes == old(nodes) && length == old(length)
      ensures data.Some? ==> nodes == old(nodes) + [Node(data.value, 1)] && length == old(length) + 1
    {
      AddDataLen(data, 1);
    }

    /** add_data(data, len): a null pointer changes nothing; otherwise {data, len} is appended. */
    method AddDataLen(data: Option<Ptr>, len: u8)
      requires Valid()
      modifies this
      ensures Valid()
      ensures data.None? ==> nodes == old(nodes) && length == old(length)
      ensures data.Some? ==> nodes == old(nodes) + [Node(data.value, len)] && length == old(length) + len
    {
      if data.Some? {
        var temp := Node(data.value, len);
        TotalConcat(nodes, [temp]);
        length := length + temp.size;
        nodes := nodes + [temp];
      }
    }

    /** remove_data(data): erase the first node registering `data` and take its floats off the count. */
    method RemoveData(data: Option<Ptr>)
      requires Valid()
      modifies this
      ensures Valid()
      ensures nodes == Removed(old(nodes), data)
    {
      var k := 0;
      while k < |nodes|
        invariant k <= |nodes|
        invariant forall j :: 0 <= j < k ==> Some(nodes[j].data) != data
      {
        if Some(nodes[k].data) == data {
          assert k == First(nodes, data);
          RemovedTotal(nodes, data);
          length := length - nodes[k].size;
          nodes := nodes[..k] + nodes[k + 1..];
          return;
        }
        k := k + 1;
      }
      assert First(nodes, data) == |nodes|;
    }

    /**
      update_data: slot 0 gets the head word and the following slots every
      node's values in order. Nothing checks the array bound, so the
      registered floats and the head have to fit in max_length slots.
    */
    method UpdateData(read: (Ptr, nat) -> bv32)
      requires Valid() && 1 + length <= maxLength
      modifies pack
      ensures pack[..1 + length] == [HEAD] + Packed(nodes, read)
      ensures forall j :: 1 + length <= j < maxLength ==> pack[j] == old(pack[j])
    {
      pack[0] := HEAD;
      var offset := 1;
      for k := 0 to |nodes|
        invariant offset == 1 + Total(nodes[..k]) <= 1 + length
        invariant pack[..offset] == [HEAD] + Packed(nodes[..k], read)
        invariant forall j :: offset <= j < pack.Length ==> pack[j] == old(pack[j])
      {
        Grow(nodes, k);
        PackedSnoc(nodes, k, read);
        offset := CopyNode(pack, offset, nodes[k], read);
      }
      assert nodes[..|nodes|] == nodes;
    }

    /** The inner loop of update_data: the node's values go to the slots from `offset` on. */
    static method CopyNode(pack: array<bv32>, offset: nat, n: Node, read: (Ptr, nat) -> bv32) returns (next: nat)
      requires offset + n.size <= pack.Length
      modifies pack
      ensures next == offset + n.size
      ensures pack[..next] == old(pack[..offset]) + Values(n, read)
      ensures forall j :: next <= j < pack.Length ==> pack[j] == old(pack[j])
    {
      next := offset;
      for i := 0 to n.size
        invariant next == offset + i
        invariant pack[..next] == old(pack[..offset]) + Values(n, read)[..i]
        invariant forall j :: next <= j < pack.Length ==> pack[j] == old(pack[j])
      {
        pack[next] := read(n.data, i);
        next := next + 1;
      }
      assert Values(n, read)[..n.size] == Values(n, read);
    }

    /**
      send: the first (_length + 1) * 4 bytes of the array. Reading past
      the array is undefined, so the count has to fit in max_length slots.
    */
    method Send() returns (sent: seq<byte>)
      requires Valid() && 1 + length <= maxLength
      ensures |sent| == (length + 1) * 4
      ensures forall i :: 0 <= i <= length ==> sent[4 * i .. 4 * i + 4] == WordBytes(pack[i])
    {
      sent := Bytes(pack[..1 + length]);
      forall i | 0 <= i <= length
        ensures sent[4 * i .. 4 * i + 4] == WordBytes(pack[i])
      {
        BytesAt(pack[..1 + length], i);
      }
    }
  }

  /** One node more packs that node's values after the others. */
  lemma PackedSnoc(nodes: seq<Node>, k: nat, read: (Ptr, nat) -> bv32)
    requires k < |nodes|
    ensures Packed(nodes[..k + 1], read) == Packed(nodes[..k], read) + Values(nodes[k], read)
    ensures Total(nodes[..k + 1]) == Total(nodes[..k]) + nodes[k].size
  {
    assert nodes[..k + 1] == nodes[..k] + [nodes[k]];
    assert [nodes[k]][1..] == [];
    PackedConcat(nodes[..k], [nodes[k]], read);
    TotalConcat(nodes[..k], [nodes[k]]);
  }

  /** The floats of the first k nodes and the k-th node's floats fit within the floats of them all. */
  lemma Grow(nodes: seq<Node>, k: nat)
    requires k < |nodes|
    ensures Total(nodes[..k]) + nodes[k].size <= Total(nodes)
  {
    assert nodes == nodes[..k] + [nodes[k]] + nodes[k + 1..];
    TotalConcat(nodes[..k] + [nodes[k]], nodes[k + 1..]);
    TotalConcat(nodes[..k], [nodes[k]]);
  }
}
