/** From the bytes an ADC answers to the records the decoding script prints. */
module Pipeline {
  import opened Bytes
  import opened Packets
  import opened Adc
  import opened SensorThread

  /** The middle and last byte of an ADC answer, and when it was read. */
  datatype Answer = Answer(b1: byte, b2: byte, timestamp: UInt64)

  function Reading(a: Answer): Item {
    Item(AdcValue(a.b1, a.b2), a.timestamp)
  }

  /** The readings are, in order, those of the answers. */
  ghost predicate ReadFrom(p: seq<Item>, answers: seq<Answer>) {
    |p| == |answers| && forall i :: 0 <= i < |p| ==> p[i] == Reading(answers[i])
  }

  /**
   The log of a sensor decodes to one record for sixteen of every seventeen answers of its ADC: record j is the
   number 256 b1 + b2 without its two low bits, and the timestamp, of answer 17 (j / 16) + j % 16.
   */
  lemma {:induction false} EndToEnd(log: seq<byte>, sensor: byte, p: seq<Item>, answers: seq<Answer>, j: nat)
    requires LogOf(log, sensor, p) && ReadFrom(p, answers)
    ensures |DecodeLog(log)| == 16 * (|answers| / 17)
    ensures j < |DecodeLog(log)| ==>
              var i := 17 * (j / 16) + j % 16;
              && i < |answers|
              && DecodeLog(log)[j] == Record((256 * answers[i].b1 + answers[i].b2) / 4, answers[i].timestamp)
  {
    LogRoundTrip(log, sensor, p);
    PackedAt(p, j);
    if j < |DecodeLog(log)| {
      var i := 17 * (j / 16) + j % 16;
      assert p[i] == Reading(answers[i]);
      ReadingSurvives(answers[i].b1, answers[i].b2);
    }
  }

  /** For arbitrary 16-bit readings the decoded numbers are the readings exactly when all packed ones are below 2^15. */
  lemma {:induction false} SignedDecodeExactly(log: seq<byte>, sensor: byte, p: seq<Item>)
    requires LogOf(log, sensor, p)
    ensures |DecodeLog(log)| == |Packed(p)|
    ensures (forall j :: 0 <= j < |Packed(p)| ==> DecodeLog(log)[j].d == Packed(p)[j].reading)
            <==> forall j :: 0 <= j < |Packed(p)| ==> Packed(p)[j].reading < 0x8000
  {
    LogRoundTrip(log, sensor, p);
    assert forall j :: 0 <= j < |Packed(p)| ==> DecodeLog(log)[j] == AsRecord(Packed(p)[j]);
  }
}
