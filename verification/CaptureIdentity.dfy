/** The 64-bit name of one capture: magic, slot, connection generation and capture generation, packed. */
module CaptureIdentity {
  import opened Options

  const MAGIC: bv64 := 0xEC
  const MAX_CONNECTION: bv32 := 0x000F_FFFF

  datatype Identity = Identity(slot: bv8, capture: bv32, connection: bv32)

  predicate Encodable(i: Identity) {
    SlotIsValid(i.slot) && i.capture != 0 && i.connection != 0 && i.connection <= MAX_CONNECTION
  }

  predicate SlotIsValid(slot: bv8) {
    1 <= slot <= 4
  }

  function Pack(magic: bv64, slot: bv8, connection: bv32, capture: bv32): bv64 {
    (magic << 56) | ((slot as bv64) << 52) | ((connection as bv64) << 32) | (capture as bv64)
  }

  function MagicOf(x: bv64): bv64 {
    x >> 56
  }

  function SlotOf(x: bv64): bv8 {
    ((x >> 52) & 0x0F) as bv8
  }

  function ConnectionOf(x: bv64): bv32 {
    ((x >> 32) & 0x000F_FFFF) as bv32
  }

  function CaptureOf(x: bv64): bv32 {
    (x & 0xFFFF_FFFF) as bv32
  }

  /** Zero stands for "not encodable"; no identity encodes to it. */
  function Encode(i: Identity): bv64 {
    if !Encodable(i) then 0 else Pack(MAGIC, i.slot, i.connection, i.capture)
  }

  function Decode(x: bv64): Option<Identity> {
    if MagicOf(x) != MAGIC || !SlotIsValid(SlotOf(x)) then None
    else
      var i := Identity(SlotOf(x), CaptureOf(x), ConnectionOf(x));
      if i.capture == 0 || i.connection == 0 then None else Some(i)
  }

  lemma PackedFields(slot: bv8, connection: bv32, capture: bv32)
    requires SlotIsValid(slot) && connection <= MAX_CONNECTION
    ensures var x := Pack(MAGIC, slot, connection, capture);
            MagicOf(x) == MAGIC && SlotOf(x) == slot && ConnectionOf(x) == connection && CaptureOf(x) == capture && x != 0
  {
  }

  lemma FieldsMakeTheName(x: bv64)
    ensures Pack(MagicOf(x), SlotOf(x), ConnectionOf(x), CaptureOf(x)) == x && ConnectionOf(x) <= MAX_CONNECTION
  {
  }

  lemma ZeroIsNoName()
    ensures MagicOf(0) != MAGIC
  {
  }

  lemma DecodeEncode(i: Identity)
    ensures Encodable(i) ==> Encode(i) != 0 && Decode(Encode(i)) == Some(i)
    ensures !Encodable(i) ==> Decode(Encode(i)).None?
  {
    hide Pack, MagicOf, SlotOf, ConnectionOf, CaptureOf, SlotIsValid;
    ZeroIsNoName();
    if Encodable(i) { PackedFields(i.slot, i.connection, i.capture); }
  }

  /** Canonical both ways: every accepted name is the one encoding of what it decodes to, so there are no aliases. */
  lemma EncodeDecode(x: bv64)
    ensures Decode(x).Some? ==> Encodable(Decode(x).value) && Encode(Decode(x).value) == x
  {
    hide Pack, MagicOf, SlotOf, ConnectionOf, CaptureOf, SlotIsValid;
    FieldsMakeTheName(x);
  }
}
