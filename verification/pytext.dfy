/**
 Python's `str.strip()` with no argument: removal of leading and trailing
 whitespace, where whitespace is what `str.isspace()` accepts.
 */
module PyText {

  /**
   The characters Python treats as whitespace: the ASCII controls TAB through
   CR, the four information separators, SPACE, NEL, NO-BREAK SPACE, and the
   Unicode space separators and line/paragraph separators.
   */
  predicate IsSpace(c: char)
  {
    || ('\U{9}' <= c <= '\U{D}')
    || ('\U{1C}' <= c <= '\U{1F}')
    || c == '\U{20}'
    || c == '\U{85}'
    || c == '\U{A0}'
    || c == '\U{1680}'
    || ('\U{2000}' <= c <= '\U{200A}')
    || c == '\U{2028}'
    || c == '\U{2029}'
    || c == '\U{202F}'
    || c == '\U{205F}'
    || c == '\U{3000}'
  }

  /** Every character of `s` is whitespace (true of the empty string). */
  predicate AllSpace(s: string)
  {
    forall i :: 0 <= i < |s| ==> IsSpace(s[i])
  }

  /** Number of whitespace characters at the start of `s`. */
  function LeadingSpace(s: string): (k: nat)
    ensures k <= |s|
    ensures forall i :: 0 <= i < k ==> IsSpace(s[i])
    ensures k < |s| ==> !IsSpace(s[k])
  {
    if |s| == 0 || !IsSpace(s[0]) then 0
    else 1 + LeadingSpace(s[1..])
  }

  /** Number of whitespace characters at the end of `s`. */
  function TrailingSpace(s: string): (k: nat)
    ensures k <= |s|
    ensures forall i :: |s| - k <= i < |s| ==> IsSpace(s[i])
    ensures k < |s| ==> !IsSpace(s[|s| - k - 1])
  {
    if |s| == 0 || !IsSpace(s[|s| - 1]) then 0
    else 1 + TrailingSpace(s[..|s| - 1])
  }

  /** `s` with leading and trailing whitespace removed. */
  function Strip(s: string): (r: string)
    ensures |r| <= |s|
    ensures r == [] <==> AllSpace(s)
    ensures r != [] ==> !IsSpace(r[0]) && !IsSpace(r[|r| - 1])
    ensures exists i :: 0 <= i <= |s| - |r| && r == s[i..i + |r|]
              && AllSpace(s[..i]) && AllSpace(s[i + |r|..])
  {
    var lead := LeadingSpace(s);
    var rest := s[lead..];
    var r := rest[..|rest| - TrailingSpace(rest)];
    StripSlice(s, lead, rest, r);
    StripEmptyIff(s, lead, rest, r);
    r
  }

  /** The stripped string sits in `s` between two runs of whitespace. */
  lemma StripSlice(s: string, lead: nat, rest: string, r: string)
    requires lead == LeadingSpace(s) && rest == s[lead..]
    requires r == rest[..|rest| - TrailingSpace(rest)]
    ensures 0 <= lead <= |s| - |r| && r == s[lead..lead + |r|]
    ensures AllSpace(s[..lead]) && AllSpace(s[lead + |r|..])
  {
    var trail := TrailingSpace(rest);
    var head, tail := s[..lead], s[lead + |r|..];
    forall i | 0 <= i < |head|
      ensures IsSpace(head[i])
    {
      assert head[i] == s[i];
    }
    forall i | 0 <= i < |tail|
      ensures IsSpace(tail[i])
    {
      assert tail[i] == rest[|rest| - trail + i];
    }
  }

  /** Nothing is left exactly when `s` is all whitespace; otherwise both ends are not whitespace. */
  lemma StripEmptyIff(s: string, lead: nat, rest: string, r: string)
    requires lead == LeadingSpace(s) && rest == s[lead..]
    requires r == rest[..|rest| - TrailingSpace(rest)]
    ensures r == [] <==> AllSpace(s)
    ensures r != [] ==> !IsSpace(r[0]) && !IsSpace(r[|r| - 1])
  {
    if r == [] {
      StripEmpty(s, lead, rest);
    } else {
      StripNonEmpty(s, lead, rest, r);
    }
  }

  lemma StripNonEmpty(s: string, lead: nat, rest: string, r: string)
    requires lead == LeadingSpace(s) && rest == s[lead..]
    requires r == rest[..|rest| - TrailingSpace(rest)] && r != []
    ensures !AllSpace(s)
    ensures !IsSpace(r[0]) && !IsSpace(r[|r| - 1])
  {
    var trail := TrailingSpace(rest);
    assert lead < |s|;
    assert r[0] == s[lead];
    assert r[|r| - 1] == rest[|rest| - trail - 1];
  }

  lemma StripEmpty(s: string, lead: nat, rest: string)
    requires lead == LeadingSpace(s) && rest == s[lead..]
    requires TrailingSpace(rest) == |rest|
    ensures AllSpace(s)
  {
    LeadThenTrail(s);
  }

  /** After the leading whitespace, a non-empty remainder does not consist of whitespace only. */
  lemma LeadThenTrail(s: string)
    ensures LeadingSpace(s) < |s| ==> TrailingSpace(s[LeadingSpace(s)..]) < |s| - LeadingSpace(s)
  {
    var lead := LeadingSpace(s);
    if lead < |s| {
      var rest := s[lead..];
      assert rest[0] == s[lead];
    }
  }

  /** Stripping is idempotent: a stripped string has nothing left to strip. */
  lemma StripIdempotent(s: string)
    ensures Strip(Strip(s)) == Strip(s)
  {
    var r := Strip(s);
    assert LeadingSpace(r) == 0;
    assert TrailingSpace(r) == 0;
  }
}
