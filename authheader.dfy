/** How passport-jwt reads the `Authorization` header: the header is matched against
    `/(\S+)\s+(\S+)/`, the first word is the scheme and the second the value, and the
    scheme is compared with the expected one after both are lower-cased. */
module AuthHeader {
  import opened Common

  /** JavaScript's `\s`: the white-space and line-terminator characters. */
  predicate IsSpace(c: char)
  {
    || c == ' ' || c == '\t' || c == '\n' || c == '\r' || c == '\U{B}' || c == '\U{C}'
    || c == '\U{A0}' || c == '\U{1680}' || ('\U{2000}' <= c <= '\U{200A}')
    || c == '\U{2028}' || c == '\U{2029}' || c == '\U{202F}' || c == '\U{205F}'
    || c == '\U{3000}' || c == '\U{FEFF}'
  }

  /** Every character of `s` is white space (the empty string included). */
  predicate AllSpace(s: string)
  {
    forall i :: 0 <= i < |s| ==> IsSpace(s[i])
  }

  /** No character of `s` is white space (the empty string included). */
  predicate NoSpace(s: string)
  {
    forall i :: 0 <= i < |s| ==> !IsSpace(s[i])
  }

  /** What `\S+` matches: a non-empty run of non-space characters. */
  predicate IsWord(s: string)
  {
    |s| > 0 && NoSpace(s)
  }

  /** `s` ends where it is, or a white-space character follows. */
  predicate AtBoundary(s: string)
  {
    s == [] || IsSpace(s[0])
  }

  /** `s` without its leading white space. */
  function SkipSpace(s: string): (r: string)
    ensures |r| <= |s| && r == s[|s| - |r|..]
    ensures AllSpace(s[..|s| - |r|])
    ensures r == [] || !IsSpace(r[0])
    decreases |s|
  {
    if s != [] && IsSpace(s[0]) then SkipSpace(s[1..]) else s
  }

  /** The length of the run of non-space characters `s` starts with. */
  function WordLength(s: string): (n: nat)
    ensures n <= |s| && NoSpace(s[..n]) && AtBoundary(s[n..])
    decreases |s|
  {
    if s == [] || IsSpace(s[0]) then 0
    else
      var k := WordLength(s[1..]);
      assert s[1..][k..] == s[k + 1..];
      assert s[..k + 1] == [s[0]] + s[1..][..k];
      k + 1
  }

  /** The scheme and the value of an `Authorization` header. */
  datatype AuthParams = AuthParams(scheme: string, value: string)

  /** `hdrValue.match(/(\S+)\s+(\S+)/)`: the first two words of the header, if it has two. */
  function ParseAuthHeader(h: string): (r: Option<AuthParams>)
    ensures r.Some? ==> IsWord(r.value.scheme) && IsWord(r.value.value)
    ensures r.Some? ==> |r.value.scheme| + |r.value.value| < |h|
  {
    var a := SkipSpace(h);
    var n := WordLength(a);
    if n == 0 then None
    else
      var rest := SkipSpace(a[n..]);
      var m := WordLength(rest);
      if m == 0 then None else Some(AuthParams(a[..n], rest[..m]))
  }

  /** Skipping white space in front of a string that does not start with white space. */
  lemma {:induction false} SkipSpaceBefore(lead: string, s: string)
    requires AllSpace(lead) && (s == [] || !IsSpace(s[0]))
    ensures SkipSpace(lead + s) == s
    decreases |lead|
  {
    if lead != [] {
      assert (lead + s)[1..] == lead[1..] + s;
      SkipSpaceBefore(lead[1..], s);
    } else {
      assert lead + s == s;
    }
  }

  /** The run of non-space characters at the front of a word followed by a boundary. */
  lemma {:induction false} WordLengthOf(w: string, rest: string)
    requires NoSpace(w) && AtBoundary(rest)
    ensures WordLength(w + rest) == |w|
    decreases |w|
  {
    if w != [] {
      assert (w + rest)[1..] == w[1..] + rest;
      WordLengthOf(w[1..], rest);
    } else {
      assert w + rest == rest;
    }
  }

  /** A header made of optional white space, a scheme, white space, a value and anything
      that starts with white space parses to that scheme and that value. */
  lemma ParseTwoWords(lead: string, scheme: string, gap: string, value: string, rest: string)
    requires AllSpace(lead) && IsWord(scheme) && |gap| > 0 && AllSpace(gap)
    requires IsWord(value) && AtBoundary(rest)
    ensures ParseAuthHeader(lead + scheme + gap + value + rest) == Some(AuthParams(scheme, value))
  {
    var h := lead + scheme + gap + value + rest;
    var vr := value + rest;
    var tail := gap + vr;
    var a := scheme + tail;
    assert h == lead + a;
    SkipSpaceBefore(lead, a);
    assert AtBoundary(tail) by { assert tail[0] == gap[0]; }
    WordLengthOf(scheme, tail);
    assert a[..|scheme|] == scheme && a[|scheme|..] == tail;
    SkipSpaceBefore(gap, vr);
    WordLengthOf(value, rest);
    assert vr[..|value|] == value;
  }

  /** A header with fewer than two words (blank, or one word between white space) has
      no scheme and value. */
  lemma ParseOneWord(lead: string, w: string, trail: string)
    requires AllSpace(lead) && NoSpace(w) && AllSpace(trail)
    ensures ParseAuthHeader(lead + w + trail).None?
  {
    var h := lead + w + trail;
    if w == [] {
      assert h == lead + trail;
      assert AllSpace(h) by {
        forall i | 0 <= i < |h| ensures IsSpace(h[i]) {
          if i < |lead| { assert h[i] == lead[i]; } else { assert h[i] == trail[i - |lead|]; }
        }
      }
      SkipSpaceBefore(h, []);
      assert h + [] == h;
    } else {
      assert h == lead + (w + trail);
      SkipSpaceBefore(lead, w + trail);
      assert trail == [] || IsSpace(trail[0]);
      WordLengthOf(w, trail);
      assert (w + trail)[|w|..] == trail;
      SkipSpaceBefore(trail, []);
      assert trail + [] == trail;
    }
  }

  /** `c.toLowerCase()` for a letter A to Z; every other character is kept. */
  function LowerChar(c: char): char
  {
    if 'A' <= c <= 'Z' then (c as int + 32) as char else c
  }

  /** `String.prototype.toLowerCase` on the letters A to Z; other characters are kept. */
  function ToLower(s: string): (r: string)
    ensures |r| == |s|
  {
    seq(|s|, i requires 0 <= i < |s| => LowerChar(s[i]))
  }

  /** `fromAuthHeaderWithScheme(scheme)`: the value of a present, non-empty header whose
      first word equals `scheme` once both are lower-cased. */
  function FromAuthHeaderWithScheme(scheme: string, header: Option<string>): (t: Option<string>)
    ensures t.Some? ==> header.Some? && IsWord(t.value)
    ensures t.Some? ==>
      && header.value != ""
      && ParseAuthHeader(header.value).Some?
      && ParseAuthHeader(header.value).value.value == t.value
      && ToLower(ParseAuthHeader(header.value).value.scheme) == ToLower(scheme)
  {
    if header.None? || header.value == "" then None
    else
      match ParseAuthHeader(header.value)
      case None => None
      case Some(params) =>
        if ToLower(params.scheme) == ToLower(scheme) then Some(params.value) else None
  }

  /** `ExtractJwt.fromAuthHeaderAsBearerToken()`, which is `fromAuthHeaderWithScheme('bearer')`. */
  function FromAuthHeaderAsBearerToken(header: Option<string>): Option<string>
  {
    FromAuthHeaderWithScheme("bearer", header)
  }

  /** Lower-casing leaves a string without capitals unchanged. */
  lemma ToLowerNoCapitals(s: string)
    requires forall i :: 0 <= i < |s| ==> !('A' <= s[i] <= 'Z')
    ensures ToLower(s) == s
  {
  }

  /** A scheme that lower-cases to "bearer" is one word. */
  lemma BearerSchemeIsWord(scheme: string)
    requires ToLower(scheme) == "bearer"
    ensures IsWord(scheme)
  {
    forall i | 0 <= i < |scheme| ensures !IsSpace(scheme[i]) {
      assert ToLower(scheme)[i] == "bearer"[i];
    }
  }

  /** "bearer" is already in lower case. */
  lemma BearerIsLowerCase()
    ensures ToLower("bearer") == "bearer"
  {
    ToLowerNoCapitals("bearer");
  }

  /** The extractor on a header whose first word matches the scheme in lower case yields
      the header's second word. */
  lemma MatchedSchemeToken(expected: string, h: string, scheme: string, value: string)
    requires ParseAuthHeader(h) == Some(AuthParams(scheme, value))
    requires ToLower(scheme) == ToLower(expected)
    ensures FromAuthHeaderWithScheme(expected, Some(h)) == Some(value)
  {
    assert |h| > 0;
  }

  /** The scheme is matched in any letter case ("Bearer", "bearer" and "BEARER" all name
      it), any run of white space may separate it from the token, and whatever follows the
      token after white space is dropped. */
  lemma BearerHeader(scheme: string, gap: string, token: string, rest: string)
    requires ToLower(scheme) == "bearer"
    requires |gap| > 0 && AllSpace(gap) && IsWord(token) && AtBoundary(rest)
    ensures FromAuthHeaderAsBearerToken(Some(scheme + gap + token + rest)) == Some(token)
  {
    BearerSchemeIsWord(scheme);
    BearerIsLowerCase();
    var h := scheme + gap + token + rest;
    assert h == "" + scheme + gap + token + rest;
    ParseTwoWords("", scheme, gap, token, rest);
    MatchedSchemeToken("bearer", h, scheme, token);
  }

  /** "Bearer" lower-cases to "bearer". */
  lemma BearerLowerCase()
    ensures ToLower("Bearer") == "bearer"
  {
    var lower := ToLower("Bearer");
    assert lower[0] == 'b';
    assert lower[1..] == "Bearer"[1..] by { ToLowerNoCapitals("earer"); }
  }

  /** The extractor takes back exactly the token that login puts after "Bearer ",
      provided the token is one word, as a signed token is. */
  lemma ExtractBearerToken(token: string)
    requires IsWord(token)
    ensures FromAuthHeaderAsBearerToken(Some("Bearer " + token)) == Some(token)
  {
    BearerLowerCase();
    BearerHeader("Bearer", " ", token, "");
    assert "Bearer" + " " + token + "" == "Bearer " + token by {
      var scheme, gap := "Bearer", " ";
      assert scheme + gap == "Bearer ";
    }
  }

  /** The extractor on a header whose first word does not match the scheme in lower case
      yields nothing. */
  lemma MismatchedSchemeNoToken(expected: string, h: string, scheme: string, value: string)
    requires ParseAuthHeader(h) == Some(AuthParams(scheme, value))
    requires ToLower(scheme) != ToLower(expected)
    ensures FromAuthHeaderWithScheme(expected, Some(h)).None?
  {
    var t := FromAuthHeaderWithScheme(expected, Some(h));
    assert t.Some? ==> ToLower(scheme) == ToLower(expected);
  }

  /** A header whose first word is another scheme, such as "Basic abc" or "JWT abc",
      yields no token, whatever its second word. */
  lemma OtherSchemeNoToken(lead: string, scheme: string, gap: string, value: string, rest: string)
    requires AllSpace(lead) && IsWord(scheme) && |gap| > 0 && AllSpace(gap)
    requires IsWord(value) && AtBoundary(rest)
    requires ToLower(scheme) != "bearer"
    ensures FromAuthHeaderAsBearerToken(Some(lead + scheme + gap + value + rest)).None?
  {
    var h := lead + scheme + gap + value + rest;
    ParseTwoWords(lead, scheme, gap, value, rest);
    BearerIsLowerCase();
    MismatchedSchemeNoToken("bearer", h, scheme, value);
  }

  /** A header with no value after the scheme (such as "Bearer " alone) yields no token. */
  lemma SchemeAloneNoToken(lead: string, scheme: string, trail: string)
    requires AllSpace(lead) && NoSpace(scheme) && AllSpace(trail)
    ensures FromAuthHeaderAsBearerToken(Some(lead + scheme + trail)).None?
  {
    ParseOneWord(lead, scheme, trail);
  }
}
