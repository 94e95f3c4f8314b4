/** Message ids where the other side reads them: in the bytes, behind the length field and, for a PUBLISH,
    behind the topic. */
module WireIds {
  import opened Bytes
  import opened Wrappers
  import opened LengthCodec
  import opened Outbound

  /** The id in the bytes of a message that has one. */
  function WireId(m: Message): Option<u16> {
    match Field0(m.body)
    case None => None
    case Some(f) =>
      if m.head.mtype != PUBLISH then IdAt(m.body, f.size)
      else if f.size + 2 > |m.body| then None
      else IdAt(m.body, f.size + 2 + Read16(m.body, f.size))
  }

  function IdAt(s: seq<byte>, at: nat): Option<u16> {
    if at + 2 <= |s| then Some(Read16(s, at)) else None
  }

  /** Messages with QoS 1 or 2, and releases, hold their id. */
  predicate Carries(m: Message, id: u16) {
    IsStored(m) || IsRel(m) ==> WireId(m) == Some(id)
  }

  /** The bytes of a release: 0x62, the length 2, and the id, high byte first. */
  lemma {:induction false} PubrelBytes(id: u16)
    ensures ToBytes(PubrelMessage(id)) == [0x62, 2, id / 256, id % 256]
    ensures WireId(PubrelMessage(id)) == Some(id) && Carries(PubrelMessage(id), id) && IsStored(PubrelMessage(id))
  {
    var b := PubrelMessage(id).body;
    assert b == [2, id / 256, id % 256];
    assert Field0(b) == Some(Field(1, 2));
    assert Read16(b, 1) == id;
  }

  /** How a handler reads the id of a received message that is no PUBLISH. */
  function IdRead(buf: seq<byte>, beyond: byte): Option<u16>
    requires buf != []
  {
    if Accepted(buf[1..], beyond) then IdAt(buf, 1 + Decode(buf[1..], beyond).value.size) else None
  }

  /** The four bytes of an acknowledgement or release. */
  lemma {:induction false} IdReadBack(first: byte, id: u16, beyond: byte)
    ensures IdRead([first, 2] + Big16(id), beyond) == Some(id)
  {
    var s := [2] + Big16(id);
    assert ([first, 2] + Big16(id))[1..] == s;
    assert Field0(s) == Some(Field(1, 2));
    FieldLocal(s, beyond);
    assert Decode(s, beyond) == Some(Decoded(1, 2));
  }

  /** DUP does not touch it. */
  lemma {:induction false} WithDupCarries(m: Message, id: u16)
    ensures Carries(WithDup(m), id) <==> Carries(m, id)
  {
  }
}
