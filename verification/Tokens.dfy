/**
  The signed token "challengeID|timestamp.signature", as both the challenge engine
  (internal/service/challenge/engine.go, signToken) and the verification service
  (internal/service/verify/service.go, GenerateToken) write it. HMAC (RFC 2104) and the
  time format of RFC 3339 are left uninterpreted, known only by the law below.
 */
module Tokens {
  import opened Prelude

  datatype Codec = Codec(mac: string -> string, format: int -> string, parse: string -> Option<int>)

  /** Instants of the years 1 to 9999, which the format can express. */
  predicate Expressible(t: int) { 0 <= t < 315_537_897_600 * SECOND }

  /** What the stamp keeps of an instant: its whole seconds. */
  function Stamped(t: int): int { t - t % 1_000_000_000 }

  /** Formatting drops the fraction of a second, and parsing gives the rest back. */
  ghost predicate Lawful(codec: Codec) {
    forall t :: Expressible(t) ==> codec.parse(codec.format(t)) == Some(Stamped(t)) && '.' !in codec.format(t)
  }

  /** strings.SplitN(s, sep, 2) when it yields two parts. */
  function SplitOnce(s: string, sep: char): Option<(string, string)> {
    if s == [] then None
    else if s[0] == sep then Some(([], s[1..]))
    else match SplitOnce(s[1..], sep)
      case None => None
      case Some((a, b)) => Some(([s[0]] + a, b))
  }

  /** Splitting cuts at the first separator, and only there. */
  lemma {:induction false} SplitCharacterized(s: string, sep: char)
    ensures match SplitOnce(s, sep)
            case None => sep !in s
            case Some((a, b)) => s == a + [sep] + b && sep !in a
  {
    if s != [] {
      SplitCharacterized(s[1..], sep);
    }
  }

  /** The parts around a separator come back exactly when it is the first one. */
  lemma {:induction false} SplitsBack(a: string, sep: char, b: string)
    ensures SplitOnce(a + [sep] + b, sep) == Some((a, b)) <==> sep !in a
  {
    if a == [] {
      assert a + [sep] + b == [sep] + b;
    } else {
      SplitsBack(a[1..], sep, b);
      assert (a + [sep] + b)[1..] == a[1..] + [sep] + b;
      SplitCharacterized(a + [sep] + b, sep);
      assert [a[0]] + a[1..] == a;
    }
  }

  function Payload(codec: Codec, id: string, t: int): string { id + ['|'] + codec.format(t) }

  function Sign(codec: Codec, id: string, t: int): string {
    var payload := Payload(codec, id, t);
    payload + ['.'] + codec.mac(payload)
  }

  /** The instant a token claims to have been signed at. */
  function Claim(codec: Codec, payload: string): Option<(string, int)> {
    match SplitOnce(payload, '|')
    case None => None
    case Some((id, ts)) => match codec.parse(ts)
      case None => None
      case Some(stamp) => Some((id, stamp))
  }

  function ClaimOf(codec: Codec, token: string): Option<(string, int)> {
    match SplitOnce(token, '.')
    case None => None
    case Some((payload, _)) => Claim(codec, payload)
  }

  predicate PlainID(id: string) { '.' !in id && '|' !in id }

  /**
    Signing and parsing undo each other: the payload, the signature and the stamp come
    back whole exactly when the ID holds neither separator.
   */
  lemma SignedTokenParses(codec: Codec, id: string, t: int)
    requires Lawful(codec) && Expressible(t)
    ensures (SplitOnce(Sign(codec, id, t), '.') == Some((Payload(codec, id, t), codec.mac(Payload(codec, id, t))))
             && SplitOnce(Payload(codec, id, t), '|') == Some((id, codec.format(t))))
            <==> PlainID(id)
    ensures PlainID(id) ==> ClaimOf(codec, Sign(codec, id, t)) == Some((id, Stamped(t)))
  {
    SplitsBack(Payload(codec, id, t), '.', codec.mac(Payload(codec, id, t)));
    SplitsBack(id, '|', codec.format(t));
  }
}
