/** Bearer-token cleaning applied to the Authorization header (helper.CleanJWT). */
module Jwt {
  import opened Wrappers
  import opened Text

  const BearerPrefix: string := "Bearer "

  /**
   * The token carried by an Authorization header, or None for the error
   * return (the Go function then also returns the empty string).
   */
  function CleanJWT(header: string): (token: Option<string>)
    ensures token.Some? <==> HasPrefix(header, BearerPrefix)
    ensures token.Some? ==> BearerPrefix + token.value == header
  {
    if HasPrefix(header, BearerPrefix) then Some(TrimPrefix(header, BearerPrefix)) else None
  }

  /** Cleaning inverts prefixing: "Bearer " + t gives back t, whatever t is. */
  lemma CleanJWTRoundTrip(t: string)
    ensures CleanJWT(BearerPrefix + t) == Some(t)
  {
    assert (BearerPrefix + t)[..|BearerPrefix|] == BearerPrefix;
  }

  /** On success the token is the header's suffix after its first seven characters. */
  lemma CleanJWTIsSuffix(header: string)
    requires CleanJWT(header).Some?
    ensures |CleanJWT(header).value| == |header| - 7
    ensures CleanJWT(header).value == header[7..]
  {
    var t := CleanJWT(header).value;
    assert header == BearerPrefix + t;
    assert header[7..] == t;
  }

  /** Only one prefix is stripped. */
  lemma CleanJWTStripsOnce()
    ensures CleanJWT("Bearer Bearer x") == Some("Bearer x")
  {
    CleanJWTRoundTrip("Bearer x");
    assert BearerPrefix + "Bearer x" == "Bearer Bearer x";
  }

  /** The match is case-sensitive and needs the space. */
  lemma CleanJWTRejects()
    ensures CleanJWT("bearer abc").None?
    ensures CleanJWT("Bearer").None?
    ensures CleanJWT("BearerXabc").None?
    ensures CleanJWT("").None?
  {
    assert "bearer abc"[..7] != BearerPrefix by { assert "bearer abc"[0] != BearerPrefix[0]; }
    assert "BearerXabc"[..7] != BearerPrefix by { assert "BearerXabc"[6] != BearerPrefix[6]; }
  }
}
