/** `pasteDuration`, the text codec for paste lifetimes (paste.go).

    Go's `Duration.String` and `time.ParseDuration` are not modelled; a `Codec`
    carries them as plain functions together with the `PasteNeverExpire` token,
    and `Lawful` states what the pasteDuration code relies on them for. */
module PasteDuration {
  import opened Base

  datatype Codec = Codec(
    show: Duration -> string,
    parse: string -> Result<Duration>,
    neverExpire: string)

  /** A run of decimal digits other than "0": `time.ParseDuration` rejects it
      with "missing unit" (only the bare "0" needs no unit). */
  predicate IsUnitless(s: string)
  {
    |s| > 0 && s != "0" && forall i :: 0 <= i < |s| ==> '0' <= s[i] <= '9'
  }

  /** What the codec code needs from the standard library: the parser inverts the
      printer on every non-zero duration, the printer never yields the sentinel,
      and numbers without a unit are rejected. */
  ghost predicate Lawful(c: Codec)
  {
    && (forall d: Duration :: d != 0 ==> c.parse(c.show(d)) == Ok(d))
    && (forall d: Duration :: d != 0 ==> c.show(d) != c.neverExpire)
    && (forall s :: IsUnitless(s) ==> c.parse(s).Err?)
  }

  /** `(*pasteDuration).MarshalText`: the zero duration is the sentinel. */
  function MarshalText(c: Codec, d: Duration): (r: Result<string>)
    ensures r.Ok?
    ensures d == 0 ==> r.value == c.neverExpire
    ensures d != 0 ==> r.value == c.show(d)
  {
    if d == 0 then Ok(c.neverExpire) else Ok(c.show(d))
  }

  /** `(*pasteDuration).String`: the marshalled text, error discarded. */
  function String(c: Codec, d: Duration): (r: string)
    ensures r == MarshalText(c, d).value
  {
    match MarshalText(c, d)
    case Ok(text) => text
    case Err(_) => ""
  }

  /** `(*pasteDuration).UnmarshalText` on a receiver holding `receiver`:
      the new receiver value and the returned error. */
  function UnmarshalText(c: Codec, receiver: Duration, text: string): (r: (Duration, Option<Error>))
    ensures text == c.neverExpire ==> r == (0, None)
    ensures text != c.neverExpire ==>
      match c.parse(text)
      case Ok(d) => r == (d, None)
      case Err(e) => r == (receiver, Some(e))
  {
    if text == c.neverExpire then (0, None)
    else
      match c.parse(text)
      case Err(e) => (receiver, Some(e))
      case Ok(d) => (d, None)
  }

  /** Decoding what was encoded restores the duration, whatever the receiver held. */
  lemma RoundTrip(c: Codec, d: Duration, receiver: Duration)
    requires Lawful(c)
    ensures UnmarshalText(c, receiver, MarshalText(c, d).value) == (d, None)
  {
  }

  /** The sentinel decodes to zero and re-encodes to itself. */
  lemma SentinelRoundTrip(c: Codec, receiver: Duration)
    ensures UnmarshalText(c, receiver, c.neverExpire) == (0, None)
    ensures MarshalText(c, UnmarshalText(c, receiver, c.neverExpire).0).value == c.neverExpire
  {
  }

  /** A number without a unit (the "1" of the API test) is an error and the receiver keeps its value. */
  lemma UnitlessTextRejected(c: Codec, receiver: Duration, text: string)
    requires Lawful(c)
    requires IsUnitless(text) && text != c.neverExpire
    ensures UnmarshalText(c, receiver, text).0 == receiver
    ensures UnmarshalText(c, receiver, text).1.Some?
  {
  }
}
