/** The expiry check on an access token (a JSON Web Token, RFC 7519): take
    the second dot-separated segment, decode it, and compare its `exp` claim
    (Unix seconds) with the current time in milliseconds. */
module TokenValidator {
  import opened Js

  /** What base64-decoding the payload segment (`atob`), parsing it as JSON
      and reading its `exp` property yields. */
  datatype Payload =
    | Unreadable      // `atob` or `JSON.parse` throws, or the payload is `null`
    | Claims(exp: Exp)

  datatype Exp =
    | ExpSeconds(seconds: int)  // `exp` coerced to a number (`null` is 0, `"5"` is 5), in whole seconds
    | ExpNaN                    // `exp` absent or not coercible to a number: `exp * 1000` is NaN

  /** The decoding of a payload segment, which the model does not implement. */
  type Decoder = string -> Payload

  /** Index of the first '.' in `s`, or `|s|` when there is none. */
  function IndexOfDot(s: string): (i: nat)
    ensures i <= |s|
    ensures i < |s| ==> s[i] == '.'
    ensures '.' !in s[..i]
  {
    if s == [] || s[0] == '.' then 0
    else
      var j := IndexOfDot(s[1..]);
      assert s[..j + 1] == [s[0]] + s[1..][..j];
      j + 1
  }

  /** `s.split('.')`: the maximal dot-free pieces of `s`, in order. */
  function Split(s: string): (parts: seq<string>)
    ensures |parts| >= 1
    ensures forall k :: 0 <= k < |parts| ==> '.' !in parts[k]
    ensures |parts| == 1 <==> '.' !in s
    decreases |s|
  {
    var i := IndexOfDot(s);
    if i == |s| then
      assert s[..i] == s;
      [s]
    else
      [s[..i]] + Split(s[i + 1..])
  }

  /** `parts.join('.')` */
  function Join(parts: seq<string>): string
    requires |parts| >= 1
    decreases |parts|
  {
    if |parts| == 1 then parts[0] else parts[0] + "." + Join(parts[1..])
  }

  /** One step of `Split` at the first dot. */
  lemma SplitAtFirstDot(s: string)
    requires IndexOfDot(s) < |s|
    ensures Split(s) == [s[..IndexOfDot(s)]] + Split(s[IndexOfDot(s) + 1..])
  {
  }

  lemma DotSplitsAt(s: string, i: nat)
    requires i < |s| && s[i] == '.'
    ensures s == s[..i] + "." + s[i + 1..]
  {
    assert s[..i] + [s[i]] == s[..i + 1];
    assert s[..i + 1] + s[i + 1..] == s;
  }

  /** Splitting loses nothing: joining the pieces gives back the token. */
  lemma {:induction false} JoinSplit(s: string)
    ensures Join(Split(s)) == s
    decreases |s|
  {
    var i := IndexOfDot(s);
    if i < |s| {
      var rest := s[i + 1..];
      SplitAtFirstDot(s);
      var parts := [s[..i]] + Split(rest);
      assert parts[1..] == Split(rest);
      JoinSplit(rest);
      assert Join(parts) == s[..i] + "." + rest;
      DotSplitsAt(s, i);
    } else {
      assert Split(s) == [s];
    }
  }

  lemma {:induction false} IndexOfDotAfter(a: string, b: string)
    requires '.' !in a
    ensures IndexOfDot(a + b) == |a| + IndexOfDot(b)
    decreases |a|
  {
    if a == [] {
      assert a + b == b;
    } else {
      assert a[0] in a;
      assert (a + b)[1..] == a[1..] + b;
      IndexOfDotAfter(a[1..], b);
    }
  }

  /** ... and splitting a join of dot-free pieces gives back the pieces. */
  lemma {:induction false} SplitJoin(parts: seq<string>)
    requires |parts| >= 1
    requires forall k :: 0 <= k < |parts| ==> '.' !in parts[k]
    ensures Split(Join(parts)) == parts
    decreases |parts|
  {
    var s := Join(parts);
    if |parts| == 1 {
      IndexOfDotAfter(parts[0], []);
      assert parts[0] + [] == parts[0];
    } else {
      var rest := Join(parts[1..]);
      assert s == parts[0] + ("." + rest);
      IndexOfDotAfter(parts[0], "." + rest);
      assert IndexOfDot(s) == |parts[0]|;
      assert s[..|parts[0]|] == parts[0];
      assert s[|parts[0]| + 1..] == rest;
      SplitJoin(parts[1..]);
    }
  }

  /** `seg` follows the first dot of `token`, which is at `i`, and runs up
      to the next dot or the end. */
  predicate FollowsFirstDot(token: string, i: int, seg: string) {
    0 <= i && i + 1 + |seg| <= |token| && token[i] == '.' && '.' !in token[..i] &&
    token[i + 1..i + 1 + |seg|] == seg &&
    (i + 1 + |seg| == |token| || token[i + 1 + |seg|] == '.')
  }

  lemma FirstPiece(s: string)
    ensures Split(s)[0] == s[..IndexOfDot(s)]
  {
  }

  lemma SecondPiece(s: string)
    requires '.' in s
    ensures |Split(s)| >= 2
    ensures IndexOfDot(s) < |s| && Split(s)[1] == Split(s[IndexOfDot(s) + 1..])[0]
  {
  }

  /** The text from just after the dot at `i` up to the next dot or the end
      follows the first dot, when `i` is the first dot. */
  lemma PieceAfterDot(token: string, i: nat)
    requires i < |token| && token[i] == '.' && '.' !in token[..i]
    ensures FollowsFirstDot(token, i, token[i + 1..][..IndexOfDot(token[i + 1..])])
  {
    var rest := token[i + 1..];
    var j := IndexOfDot(rest);
    assert token[i + 1..i + 1 + j] == rest[..j];
    assert i + 1 + j < |token| ==> token[i + 1 + j] == rest[j];
  }

  lemma SecondPieceFollowsFirstDot(token: string)
    requires '.' in token
    ensures |Split(token)| >= 2
    ensures FollowsFirstDot(token, IndexOfDot(token), Split(token)[1])
  {
    var i := IndexOfDot(token);
    SecondPiece(token);
    FirstPiece(token[i + 1..]);
    PieceAfterDot(token, i);
  }

  /** `token.split('.')[1]`: the text between the first dot and the next dot
      (or the end), or `undefined` when the token has no dot. */
  function PayloadSegment(token: string): (seg: Option<string>)
    ensures seg.Some? <==> '.' in token
    ensures seg.Some? ==> '.' !in seg.value
    ensures seg.Some? ==> exists i :: FollowsFirstDot(token, i, seg.value)
  {
    if '.' in token then
      SecondPieceFollowsFirstDot(token);
      Some(Split(token)[1])
    else
      None
  }

  /** The decoded payload; `atob(undefined)` decodes the nine characters
      "undefined", which are not valid base64, so a token without a dot has
      an unreadable payload. */
  function ReadPayload(token: string, decode: Decoder): Payload {
    match PayloadSegment(token)
    case None => Unreadable
    case Some(segment) => decode(segment)
  }

  /** `isTokenExpired(token)`, with `Date.now()` passed in as `now`. Every
      decoding failure is caught and reported as expired; a NaN expiry time
      makes the comparison false, so such a token is reported unexpired. */
  function IsTokenExpired(token: string, now: int, decode: Decoder): (expired: bool)
    ensures ReadPayload(token, decode).Unreadable? ==> expired
    ensures ReadPayload(token, decode) == Claims(ExpNaN) ==> !expired
    ensures ReadPayload(token, decode).Claims? && ReadPayload(token, decode).exp.ExpSeconds? ==>
              (expired <==> now >= ReadPayload(token, decode).exp.seconds * 1000)
  {
    match ReadPayload(token, decode)
    case Unreadable => true
    case Claims(ExpNaN) => false
    case Claims(ExpSeconds(e)) => now >= e * 1000
  }

  /** A token that cannot be decoded is expired (fail-closed). */
  lemma UnreadableIsExpired(token: string, now: int, decode: Decoder)
    requires '.' !in token || decode(PayloadSegment(token).value).Unreadable?
    ensures IsTokenExpired(token, now, decode)
  {
  }

  /** The boundary instant `now == exp * 1000` already counts as expired; one
      millisecond earlier does not. */
  lemma ExpiryBoundary(token: string, e: int, decode: Decoder)
    requires ReadPayload(token, decode) == Claims(ExpSeconds(e))
    ensures IsTokenExpired(token, e * 1000, decode)
    ensures !IsTokenExpired(token, e * 1000 - 1, decode)
  {
  }

  /** Once expired, a token stays expired as time passes. */
  lemma ExpiryIsMonotonic(token: string, now: int, later: int, decode: Decoder)
    requires now <= later
    requires IsTokenExpired(token, now, decode)
    ensures IsTokenExpired(token, later, decode)
  {
  }

  /** A well-formed token whose `exp` is absent or does not coerce to a
      number is never reported expired, whatever the time. */
  lemma MissingExpNeverExpires(token: string, now: int, decode: Decoder)
    requires ReadPayload(token, decode) == Claims(ExpNaN)
    ensures !IsTokenExpired(token, now, decode)
  {
  }

  /** The malformed token "abc" is expired, whatever the decoder. */
  lemma MalformedTokenIsExpired(now: int, decode: Decoder)
    ensures IsTokenExpired("abc", now, decode)
  {
    assert "abc"[0] != '.' && "abc"[1] != '.' && "abc"[2] != '.';
  }
}
