/** Form values arriving in chunks: src/server.c copies each chunk to its offset in a fixed buffer. */
module FormFields {
  import opened Text

  /** What one chunk at offset `off` does to the buffer. */
  function CopyChunk(dest: string, data: string, off: nat): (r: string)
    ensures |r| == |dest|
  {
    if |dest| == 0 || off >= |dest| - 1 then dest
    else
      var size := if off + |data| >= |dest| then |dest| - off - 1 else |data|;
      dest[..off] + data[..size] + "\0" + dest[off + size + 1..]
  }

  method CopyFormValue(dest: array<char>, data: string, off: nat)
    modifies dest
    ensures dest[..] == CopyChunk(old(dest[..]), data, off)
  {
    if dest.Length == 0 || off >= dest.Length - 1 {
      return;
    }
    ghost var before := dest[..];
    var copySize := |data|;
    if off + copySize >= dest.Length {
      copySize := dest.Length - off - 1;
    }
    forall i | 0 <= i < copySize {
      dest[off + i] := data[i];
    }
    dest[off + copySize] := '\0';
    assert dest[..] == CopyChunk(before, data, off);
  }

  function Concat(chunks: seq<string>): string {
    if chunks == [] then "" else Concat(chunks[..|chunks| - 1]) + chunks[|chunks| - 1]
  }

  /** The buffer after the chunks of one value, delivered at contiguous offsets from 0. */
  function Assemble(dest: string, chunks: seq<string>): (r: string)
    ensures |r| == |dest|
  {
    if chunks == [] then dest
    else
      var front := chunks[..|chunks| - 1];
      CopyChunk(Assemble(dest, front), chunks[|chunks| - 1], |Concat(front)|)
  }

  /** The part of a value that fits a buffer with room for its terminator. */
  function Fit(value: string, size: nat): (r: string)
    requires size > 0
    ensures r <= value && |r| == if |value| < size then |value| else size - 1
  {
    if |value| < size then value else value[..size - 1]
  }

  predicate Holds(dest: string, value: string) {
    |value| < |dest| && dest[..|value|] == value && dest[|value|] == '\0'
  }

  lemma CopyHolds(dest: string, value: string, data: string)
    requires |dest| >= 2 && (value == "" || Holds(dest, Fit(value, |dest|)))
    ensures Holds(CopyChunk(dest, data, |value|), Fit(value + data, |dest|))
  {
    var r, off := CopyChunk(dest, data, |value|), |value|;
    if off < |dest| - 1 {
      var size := if off + |data| >= |dest| then |dest| - off - 1 else |data|;
      assert Fit(value + data, |dest|) == value + data[..size];
      assert dest[..off] == value;
      assert r[..off + size] == value + data[..size];
    } else {
      assert Fit(value + data, |dest|) == Fit(value, |dest|);
    }
  }

  /** Main result: however a value is cut into chunks, the field ends up holding the value's first
      `size - 1` bytes and a terminator, whatever an earlier value of the same key had left there. */
  lemma {:induction false} AssembledFieldHoldsValue(dest: string, chunks: seq<string>)
    requires |dest| >= 2 && chunks != []
    ensures Holds(Assemble(dest, chunks), Fit(Concat(chunks), |dest|))
  {
    var front, last := chunks[..|chunks| - 1], chunks[|chunks| - 1];
    if front == [] {
      assert Concat(front) == "" && Assemble(dest, front) == dest;
    } else {
      AssembledFieldHoldsValue(dest, front);
    }
    CopyHolds(Assemble(dest, front), Concat(front), last);
  }

  /** So two ways of cutting one value leave the same C string in the field. */
  lemma ChunkingIsInvisible(a: string, b: string, chunks: seq<string>, others: seq<string>)
    requires |a| == |b| >= 2 && chunks != [] && others != [] && Concat(chunks) == Concat(others)
    ensures var value := Fit(Concat(chunks), |a|);
      Holds(Assemble(a, chunks), value) && Holds(Assemble(b, others), value)
  {
    AssembledFieldHoldsValue(a, chunks);
    AssembledFieldHoldsValue(b, others);
  }

  // ----- the form of one request -----

  datatype FieldName = TargetIp | TargetPort | TargetName | AdminCode | PairCode | PeerName | PeerPort

  function FieldOf(key: string): Option<FieldName> {
    if key == "target_ip" then Some(TargetIp)
    else if key == "target_port" then Some(TargetPort)
    else if key == "target_name" then Some(TargetName)
    else if key == "admin_code" then Some(AdminCode)
    else if key == "pair_code" then Some(PairCode)
    else if key == "peer_name" then Some(PeerName)
    else if key == "peer_port" then Some(PeerPort)
    else None
  }

  /** The key of each field in a form. */
  function KeyOf(f: FieldName): string {
    match f
    case TargetIp => "target_ip"
    case TargetPort => "target_port"
    case TargetName => "target_name"
    case AdminCode => "admin_code"
    case PairCode => "pair_code"
    case PeerName => "peer_name"
    case PeerPort => "peer_port"
  }

  /** A chunk finds the field whose key it carries, and no other. */
  lemma KeysNameFields(f: FieldName, key: string)
    ensures FieldOf(key) == Some(f) <==> key == KeyOf(f)
  {
  }

  function FieldSize(f: FieldName): nat {
    match f
    case TargetIp => 64
    case TargetName => 256
    case PeerName => 256
    case _ => 16
  }

  class Form {
    const targetIp: array<char>
    const targetPort: array<char>
    const targetName: array<char>
    const adminCode: array<char>
    const pairCode: array<char>
    const peerName: array<char>
    const peerPort: array<char>

    function Buffer(f: FieldName): array<char> {
      match f
      case TargetIp => targetIp
      case TargetPort => targetPort
      case TargetName => targetName
      case AdminCode => adminCode
      case PairCode => pairCode
      case PeerName => peerName
      case PeerPort => peerPort
    }

    predicate Valid() {
      && (forall f :: Buffer(f).Length == FieldSize(f))
      && forall f, g :: f != g ==> Buffer(f) != Buffer(g)
    }

    /** The buffers, as the set of objects a callback may change. */
    ghost function Buffers(): set<array<char>> {
      {targetIp, targetPort, targetName, adminCode, pairCode, peerName, peerPort}
    }

    constructor ()
      ensures Valid() && fresh(Buffers())
      ensures forall f :: Holds(Buffer(f)[..], "")
    {
      targetIp := new char[64](i => '\0');
      targetPort := new char[16](i => '\0');
      targetName := new char[256](i => '\0');
      adminCode := new char[16](i => '\0');
      pairCode := new char[16](i => '\0');
      peerName := new char[256](i => '\0');
      peerPort := new char[16](i => '\0');
    }

    /** A chunk goes to the field its key names; a key without a field is passed over. */
    method CopyField(key: string, data: string, off: nat)
      requires Valid()
      modifies Buffers()
      ensures forall f ::
        && (FieldOf(key) == Some(f) ==> Buffer(f)[..] == CopyChunk(old(Buffer(f)[..]), data, off))
        && (FieldOf(key) != Some(f) ==> Buffer(f)[..] == old(Buffer(f)[..]))
    {
      hide CopyChunk;
      if key == "target_ip" {
        CopyFormValue(targetIp, data, off);
      } else if key == "target_port" {
        CopyFormValue(targetPort, data, off);
      } else if key == "target_name" {
        CopyFormValue(targetName, data, off);
      } else if key == "admin_code" {
        CopyFormValue(adminCode, data, off);
      } else if key == "pair_code" {
        CopyFormValue(pairCode, data, off);
      } else if key == "peer_name" {
        CopyFormValue(peerName, data, off);
      } else if key == "peer_port" {
        CopyFormValue(peerPort, data, off);
      }
    }
  }

  /** One part of a form: its key and the chunks its value came in. */
  datatype Part = Part(key: string, chunks: seq<string>)

  /** A field after the parts of a form, which come one after the other. */
  function FieldAfter(dest: string, f: FieldName, parts: seq<Part>): (r: string)
    ensures |r| == |dest|
  {
    if parts == [] then dest
    else
      var before, last := FieldAfter(dest, f, parts[..|parts| - 1]), parts[|parts| - 1];
      if FieldOf(last.key) == Some(f) then Assemble(before, last.chunks) else before
  }

  /** A repeated key leaves only its last value, whatever other keys come before, between or after. */
  lemma {:induction false} LastValueStays(dest: string, f: FieldName, parts: seq<Part>, k: nat)
    requires |dest| >= 2 && k < |parts| && parts[k].key == KeyOf(f) && parts[k].chunks != []
    requires forall j :: k < j < |parts| ==> parts[j].key != KeyOf(f)
    ensures Holds(FieldAfter(dest, f, parts), Fit(Concat(parts[k].chunks), |dest|))
  {
    KeysNameFields(f, parts[|parts| - 1].key);
    hide FieldOf, KeyOf, Holds;
    var front := parts[..|parts| - 1];
    if k == |parts| - 1 {
      AssembledFieldHoldsValue(FieldAfter(dest, f, front), parts[k].chunks);
    } else {
      LastValueStays(dest, f, front, k);
    }
  }
}
