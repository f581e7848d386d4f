/** The script that turns a binary log into records. */
module Decoder {
  import opened Bytes
  import opened Packets

  /** Reads whole packets and unpacks the sixteen items behind each header. */
  method DecodeFile(file: seq<byte>) returns (records: seq<Record>)
    ensures records == DecodeLog(file)
  {
    records := [];
    var cursor := 0;
    for packet := 0 to |file| / PACKET_SIZE
      invariant cursor == 260 * packet && cursor <= |file|
      invariant records == DecodeLog(file[..cursor])
    {
      var dataBytes := file[cursor..cursor + PACKET_SIZE];
      var data := dataBytes[HEADER_SIZE..];
      ghost var before := records;
      for i := 0 to 256 / 16
        invariant records == before + UnpackItems(dataBytes, i)
      {
        assert data[i * 16..i * 16 + 16] == dataBytes[Offset(i)..Offset(i) + 16];
        records := records + [Unpack(data[i * 16..i * 16 + 16])];
      }
      OnePacketMore(file, cursor);
      cursor := cursor + PACKET_SIZE;
    }
    SplitAt(file, cursor);
  }

  lemma {:induction false} OnePacketMore(file: seq<byte>, cursor: nat)
    requires cursor % PACKET_SIZE == 0 && cursor + PACKET_SIZE <= |file|
    ensures DecodeLog(file[..cursor + PACKET_SIZE])
            == DecodeLog(file[..cursor]) + UnpackItems(file[cursor..cursor + PACKET_SIZE], ITEMS_PER_PACKET)
  {
    var log := file[..cursor + PACKET_SIZE];
    var p := file[cursor..cursor + PACKET_SIZE];
    SplitAt(log, cursor);
    assert log[..cursor] == file[..cursor] && log[cursor..] == p && p[..PACKET_SIZE] == p;
    assert DecodeLog(p[PACKET_SIZE..]) == [];
  }
}
