/** The AudioSpecificConfig of section 1.6.2.1 of ISO/IEC 14496-3, as the packaging task builds it for AAC-LC
    (`src/package/runner.rs`). */
module AacConfig {
  import opened Bytes

  function FrequencyIndex(rate: nat): (i: nat)
    ensures i < 16
  {
    match rate
    case 96000 => 0
    case 88200 => 1
    case 64000 => 2
    case 48000 => 3
    case 44100 => 4
    case 32000 => 5
    case 24000 => 6
    case 22050 => 7
    case 16000 => 8
    case 12000 => 9
    case 11025 => 10
    case 8000 => 11
    case _ => 3
  }

  function ChannelConfig(channels: nat): (c: nat)
    ensures 1 <= c <= 7
  {
    if channels < 1 then 1 else if channels > 7 then 7 else channels
  }

  function SpecificConfig(rate: nat, channels: nat): (d: seq<byte>)
    ensures |d| == 2
  {
    var bits := 0x1000 + FrequencyIndex(rate) * 0x80 + ChannelConfig(channels) * 8;
    [bits / 0x100, bits % 0x100]
  }

  // ----- Reading a configuration -----

  datatype Config = Config(objectType: nat, rate: nat, channels: nat)

  /** Table 1.18: sampling frequencies by index. */
  const RATES: seq<nat> :=
    [96000, 88200, 64000, 48000, 44100, 32000, 24000, 22050, 16000, 12000, 11025, 8000, 7350]

  /** Five bits of object type, four of sampling frequency index and four of channel configuration, of which 7 means
      eight channels (table 1.19); frames of 1024 samples, no core coder, no extension. */
  function ReadConfig(d: seq<byte>): Option<Config> {
    if |d| < 2 then None
    else
      var objectType, index := d[0] / 8, d[0] % 8 * 2 + d[1] / 0x80;
      var channels := d[1] % 0x80 / 8;
      if objectType == 0 || index >= |RATES| || channels == 0 || channels > 7 || d[1] % 8 != 0 then None
      else Some(Config(objectType, RATES[index], if channels == 7 then 8 else channels))
  }

  lemma {:induction false} Low(l: nat, channels: nat)
    requires l < 2 && channels < 8
    ensures var low := l * 0x80 + channels * 8;
      low < 0x100 && low / 0x80 == l && low % 0x80 / 8 == channels && low % 8 == 0
  {
    if l == 1 {
      assert (0x80 + channels * 8) / 0x80 == 1;
    }
  }

  lemma {:induction false} TwoBytes(index: nat, channels: nat)
    requires index < 13 && channels < 8
    ensures var bits := 0x1000 + index * 0x80 + channels * 8;
      bits / 0x100 == 0x10 + index / 2 && bits % 0x100 == index % 2 * 0x80 + channels * 8
  {
    var h, low := index / 2, index % 2 * 0x80 + channels * 8;
    Low(index % 2, channels);
    assert 0x1000 + index * 0x80 + channels * 8 == 0x100 * (0x10 + h) + low;
  }

  lemma {:induction false} FieldsRead(index: nat, channels: nat, d: seq<byte>)
    requires index < 13 && 1 <= channels <= 7
    requires d == [0x10 + index / 2, index % 2 * 0x80 + channels * 8]
    ensures ReadConfig(d) == Some(Config(2, RATES[index], if channels == 7 then 8 else channels))
  {
    Low(index % 2, channels);
    assert (0x10 + index / 2) / 8 == 2 && (0x10 + index / 2) % 8 == index / 2;
  }

  /** The configuration says AAC-LC, the sampling rate and the number of channels exactly for the twelve rates of the
      table down to 8000 and for one to six or eight channels; seven are announced as eight. */
  lemma {:induction false} ConfigReadsBack(rate: nat, channels: nat)
    ensures ReadConfig(SpecificConfig(rate, channels)) == Some(Config(2, rate, channels)) <==>
      rate in RATES && rate != 7350 && (1 <= channels <= 6 || channels == 8)
  {
    TwoBytes(FrequencyIndex(rate), ChannelConfig(channels));
    FieldsRead(FrequencyIndex(rate), ChannelConfig(channels), SpecificConfig(rate, channels));
    RateFound(rate);
  }

  lemma {:induction false} RateFound(rate: nat)
    ensures RATES[FrequencyIndex(rate)] == rate <==> rate in RATES && rate != 7350
  {
    if rate in RATES {
      var i :| 0 <= i < |RATES| && RATES[i] == rate;
    } else {
      assert RATES[FrequencyIndex(rate)] in RATES;
    }
  }
}
