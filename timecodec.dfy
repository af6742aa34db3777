/** `types.Time`: a time that travels through JSON as a decimal count of Unix
    milliseconds and through the database driver as a time value. A time is
    held as its Unix milliseconds. */
module TimeCodec {
  import opened Wrappers
  import opened Strings
  import opened Numbers

  datatype Time = Time(ms: int)

  /** `MarshalJSON`: the JSON number of the Unix milliseconds. */
  function MarshalJSON(t: Time): (b: string)
    ensures b != [] && (b[0] == '-' <==> t.ms < 0)
    ensures t.ms >= 0 ==> forall i :: 0 <= i < |b| ==> IsDigit(b[i])
  {
    FormatInt(t.ms)
  }

  /** `UnmarshalJSON` on receiver `t`: the receiver afterwards and the error.
      Any text that is not a base-10 int64 is an error and leaves the receiver
      as it was. */
  function UnmarshalJSON(t: Time, b: string): (r: (Time, Option<NumError>))
    ensures r.1 == ParseInt(b).err
    ensures r.1.Some? ==> r.0 == t
    ensures r.1.None? ==> r.0 == Time(ParseInt(b).value) && IsInt64(r.0.ms)
  {
    var ts := ParseInt(b);
    if ts.err.Some? then (t, ts.err) else (Time(ts.value), None)
  }

  /** Decoding what was encoded gives the same instant, whatever the
      receiver held. */
  lemma RoundTrip(t: Time, receiver: Time)
    requires IsInt64(t.ms)
    ensures UnmarshalJSON(receiver, MarshalJSON(t)) == (t, None)
  {
    ParseFormatInt(t.ms);
  }

  /** Encoding what was decoded gives the numeral back when it was written
      in canonical form. */
  lemma CanonicalRoundTrip(receiver: Time, n: int)
    requires IsInt64(n)
    ensures var (t, err) := UnmarshalJSON(receiver, FormatInt(n));
            err.None? && MarshalJSON(t) == FormatInt(n)
  {
    ParseFormatInt(n);
  }

  /** A value coming from the database driver. */
  datatype DbValue = TimeValue(ms: int) | OtherValue(typeName: string)

  /** `Scan` on receiver `t`: only a time value is accepted; anything else is
      an error naming its type, and the receiver is left as it was. */
  function Scan(t: Time, src: DbValue): (r: (Time, Option<string>))
    ensures src.TimeValue? <==> r.1.None?
    ensures r.1.Some? ==> r.0 == t && r.1.value == "cannot scan type " + src.typeName + " as types.Time"
    ensures r.1.None? ==> r.0.ms == src.ms
  {
    match src
    case TimeValue(ms) => (Time(ms), None)
    case OtherValue(name) => (t, Some("cannot scan type " + name + " as types.Time"))
  }

  /** `Value`: the wrapped time, unchanged. */
  function Value(t: Time): (v: DbValue)
    ensures v.TimeValue? && v.ms == t.ms
  {
    TimeValue(t.ms)
  }

  /** What is written to the database scans back as the same time. */
  lemma ScanValue(t: Time, receiver: Time)
    ensures Scan(receiver, Value(t)) == (t, None)
  {
  }
}
