/** The 8-byte frame header: device MAC (6 bytes, big-endian), command type, entity id. */
module HeaderDecoder {
  import opened Bytes
  import opened Json

  /** The dictionary `expand_header_message` builds from a raw header. */
  datatype Header = Header(
    macBytes: seq<byte>,      // device_mac_address_bytearray
    mac: nat,                 // device_mac_address_int
    entityId: byte,           // entity_id
    macAndEntity: seq<byte>,  // mac_address_and_entity_id
    commandType: byte)        // command_type

  /** Decodes a raw header; a header shorter than 8 bytes fails at `raw_header[7]` with an IndexError. */
  function DecodeHeader(raw: seq<byte>): (r: Result<Header>)
    ensures r.Ok? <==> |raw| >= 8
    ensures r.Err? ==> r.error == IndexError
  {
    if |raw| < 8 then Err(IndexError)
    else Ok(Header(raw[..6], BigEndian(raw[..6]), raw[7], raw[..6] + raw[7..8], raw[6]))
  }

  /** The 8 header bytes a node sends for a MAC, a command type and an entity id. */
  function EncodeHeader(mac: nat, commandType: byte, entityId: byte): (raw: seq<byte>)
    requires mac < Pow256(6)
    ensures |raw| == 8
  {
    ToBigEndian(mac, 6) + [commandType, entityId]
  }

  /** Decoding reads each field from its fixed position: MAC from bytes 0..5, command from 6, entity from 7. */
  lemma DecodeHeaderFields(raw: seq<byte>)
    requires |raw| >= 8
    ensures var h := DecodeHeader(raw).value;
      && h.mac == BigEndian(raw[..6]) && h.mac < Pow256(6)
      && h.macBytes == raw[..6]
      && h.commandType == raw[6]
      && h.entityId == raw[7]
      && h.macAndEntity == raw[..6] + [raw[7]] && |h.macAndEntity| == 7
  {
  }

  /** Decoding an encoded header gives back the MAC, the command type and the entity id. */
  lemma DecodeEncodeHeader(mac: nat, commandType: byte, entityId: byte)
    requires mac < Pow256(6)
    ensures DecodeHeader(EncodeHeader(mac, commandType, entityId)).Ok?
    ensures var h := DecodeHeader(EncodeHeader(mac, commandType, entityId)).value;
      h.mac == mac && h.commandType == commandType && h.entityId == entityId
      && h.macBytes == ToBigEndian(mac, 6)
  {
    var raw := EncodeHeader(mac, commandType, entityId);
    assert raw[..6] == ToBigEndian(mac, 6);
    BigEndianOfToBigEndian(mac, 6);
  }

  /** Re-encoding a decoded header reproduces the 8 raw bytes (the MAC's 6 bytes in particular). */
  lemma EncodeDecodeHeader(raw: seq<byte>)
    requires |raw| == 8
    ensures var h := DecodeHeader(raw).value;
      EncodeHeader(h.mac, h.commandType, h.entityId) == raw
      && ToBigEndian(h.mac, 6) == h.macBytes
  {
    ToBigEndianOfBigEndian(raw[..6]);
    assert raw == raw[..6] + [raw[6], raw[7]];
  }

  /** The 7-byte secondary key determines the device MAC and the entity id. */
  lemma MacAndEntityKeyIdentifiesPair(raw1: seq<byte>, raw2: seq<byte>)
    requires |raw1| >= 8 && |raw2| >= 8
    requires DecodeHeader(raw1).value.macAndEntity == DecodeHeader(raw2).value.macAndEntity
    ensures DecodeHeader(raw1).value.mac == DecodeHeader(raw2).value.mac
    ensures DecodeHeader(raw1).value.entityId == DecodeHeader(raw2).value.entityId
  {
    var k1 := DecodeHeader(raw1).value.macAndEntity;
    var k2 := DecodeHeader(raw2).value.macAndEntity;
    assert raw1[..6] == k1[..6] == k2[..6] == raw2[..6];
    assert raw1[7] == k1[6] == k2[6] == raw2[7];
  }
}
