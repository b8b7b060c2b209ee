/** Authentication of a request from its `Authorization` header. JWT
    signature checking is a foreign library: it is the oracle `verify`,
    which yields the token's `userId` claim or nothing. */
module Auth {
  import opened Api
  import opened SharedTypes

  const BearerPrefix: string := "Bearer "

  predicate StartsWith(s: string, prefix: string)
  {
    |prefix| <= |s| && s[..|prefix|] == prefix
  }

  /** `pat` occurs in `s` at position `i`. */
  predicate OccursAt(s: string, pat: string, i: int)
  {
    0 <= i && i + |pat| <= |s| && s[i..i + |pat|] == pat
  }

  /** JavaScript's `s.replace(pat, '')` for a string pattern: the first
      occurrence of `pat`, if any, is removed. */
  function RemoveFirst(s: string, pat: string): (r: string)
    requires pat != []
    ensures |r| <= |s|
  {
    if |s| < |pat| then s
    else if s[..|pat|] == pat then s[|pat|..]
    else [s[0]] + RemoveFirst(s[1..], pat)
  }

  /** An occurrence in the tail is an occurrence one further on. */
  lemma OccursInTail(s: string, pat: string, j: nat)
    requires s != []
    ensures OccursAt(s[1..], pat, j) <==> OccursAt(s, pat, j + 1)
  {
    if j + 1 + |pat| <= |s| {
      assert s[1..][j..j + |pat|] == s[j + 1..j + 1 + |pat|];
    }
  }

  lemma {:induction false} RemoveFirstAbsent(s: string, pat: string)
    requires pat != [] && forall i :: !OccursAt(s, pat, i)
    ensures RemoveFirst(s, pat) == s
  {
    if |s| >= |pat| {
      assert !OccursAt(s, pat, 0);
      forall i: nat ensures !OccursAt(s[1..], pat, i) {
        OccursInTail(s, pat, i);
      }
      RemoveFirstAbsent(s[1..], pat);
    }
  }

  lemma {:induction false} RemoveFirstAt(s: string, pat: string, i: nat)
    requires pat != [] && OccursAt(s, pat, i)
    requires forall j :: 0 <= j < i ==> !OccursAt(s, pat, j)
    ensures RemoveFirst(s, pat) == s[..i] + s[i + |pat|..]
  {
    if i > 0 {
      assert !OccursAt(s, pat, 0);
      OccursInTail(s, pat, i - 1);
      forall j: nat | j < i - 1 ensures !OccursAt(s[1..], pat, j) {
        OccursInTail(s, pat, j);
      }
      RemoveFirstAt(s[1..], pat, i - 1);
      assert s[..i] == [s[0]] + s[1..][..i - 1];
      assert s[i + |pat|..] == s[1..][i - 1 + |pat|..];
    }
  }

  /** `getUserIdFromToken` of the item routes: a token only when the header
      starts with "Bearer ", and then it is everything after those 7
      characters. */
  function BearerToken(header: Option<string>): (r: Option<string>)
    ensures r.Some? <==> header.Some? && StartsWith(header.value, BearerPrefix)
    ensures r.Some? ==> header.value == BearerPrefix + r.value
  {
    match header
    case None => None
    case Some(h) =>
      if StartsWith(h, BearerPrefix) then
        assert h == h[..7] + h[7..];
        Some(h[7..])
      else None
  }

  /** `getUserId` of the message and order routes: the header with its
      first "Bearer " removed wherever it stands, and no token when that
      leaves nothing. */
  function ReplacedToken(header: Option<string>): (r: Option<string>)
    ensures header.None? ==> r.None?
    ensures r.Some? ==> r.value != "" && |r.value| <= |header.value|
    ensures header.Some? && StartsWith(header.value, BearerPrefix) && |header.value| > |BearerPrefix| ==>
      r == Some(header.value[|BearerPrefix|..])
  {
    match header
    case None => None
    case Some(h) =>
      var t := RemoveFirst(h, BearerPrefix);
      if t == "" then None else Some(t)
  }

  /** On a well-formed header the two extractors agree. */
  lemma ExtractorsAgree(header: Option<string>)
    requires BearerToken(header).Some? && BearerToken(header).value != ""
    ensures ReplacedToken(header) == BearerToken(header)
  {
  }

  /** A header without "Bearer " in it is passed whole to the verifier by
      the message and order routes, and refused outright by the item
      routes. */
  lemma {:induction false} ReplacedTokenWithoutPrefix(h: string)
    requires h != "" && forall i :: !OccursAt(h, BearerPrefix, i)
    ensures ReplacedToken(Some(h)) == Some(h)
    ensures BearerToken(Some(h)) == None
  {
    RemoveFirstAbsent(h, BearerPrefix);
    assert !OccursAt(h, BearerPrefix, 0);
  }

  /** A "Bearer " further inside the header is cut out of it by the
      message and order routes. */
  lemma {:induction false} ReplacedTokenInside(h: string, i: nat)
    requires OccursAt(h, BearerPrefix, i) && 0 < i
    requires forall j :: 0 <= j < i ==> !OccursAt(h, BearerPrefix, j)
    ensures ReplacedToken(Some(h)) == Some(h[..i] + h[i + 7..])
    ensures BearerToken(Some(h)) == None
  {
    RemoveFirstAt(h, BearerPrefix, i);
    assert !OccursAt(h, BearerPrefix, 0);
  }

  /** The caller's identity: the `userId` claim of a token the verifier
      accepts. `verify` stands for `jwt.verify`, which refuses an empty
      token outright; an empty claim fails the handlers' `if (!userId)`
      check. */
  function Caller(token: Option<string>, verify: string -> Option<UserId>): (r: Option<UserId>)
    ensures r.Some? <==>
      token.Some? && token.value != "" && verify(token.value).Some? && verify(token.value).value != ""
    ensures r.Some? ==> r == verify(token.value)
  {
    match token
    case None => None
    case Some(t) =>
      if t == "" then None
      else match verify(t)
        case None => None
        case Some(id) => if id == "" then None else Some(id)
  }
}
