/** String helpers that several modules need: trimming as `String.trim` and `str.strip` do it. */
module Text {

  /** ASCII white space. */
  predicate IsSpace(c: char) {
    c == ' ' || c == '\t' || c == '\n' || c == '\r'
  }

  function TrimStart(s: string): (r: string)
    ensures |r| <= |s|
    ensures r != "" ==> !IsSpace(r[0])
    ensures s != "" && !IsSpace(s[0]) ==> r == s
  {
    if s != "" && IsSpace(s[0]) then TrimStart(s[1..]) else s
  }

  function TrimEnd(s: string): (r: string)
    ensures |r| <= |s| && r == s[..|r|]
    ensures r != "" ==> !IsSpace(r[|r| - 1])
    ensures s != "" && !IsSpace(s[|s| - 1]) ==> r == s
  {
    if s != "" && IsSpace(s[|s| - 1]) then TrimEnd(s[..|s| - 1]) else s
  }

  /** The text without its leading and trailing white space. */
  function Trim(s: string): (r: string)
    ensures |r| <= |s|
    ensures r != "" ==> !IsSpace(r[0]) && !IsSpace(r[|r| - 1])
    ensures s != "" && !IsSpace(s[0]) && !IsSpace(s[|s| - 1]) ==> r == s
  {
    TrimEnd(TrimStart(s))
  }

  /** An identifier as the governance service accepts it: 1 to 512 characters, trimmed, no control characters. */
  predicate Canonical(s: string) {
    0 < |s| <= 512 && Trim(s) == s && forall c | c in s :: ' ' <= c && c != 127 as char
  }

  predicate IsHex(c: char) { '0' <= c <= '9' || 'a' <= c <= 'f' }

  /** A lower-case SHA-256 hex digest. */
  predicate IsSha256(s: string) { |s| == 64 && forall c | c in s :: IsHex(c) }

  predicate IsTaggedSha256(s: string, tag: string) {
    |tag| <= |s| && s[..|tag|] == tag && IsSha256(s[|tag|..])
  }

  /** A rule content identity: `dsl-json-v1:sha256:<hex>` or `ids-xml-v1:sha256:<hex>`. */
  predicate IsRuleDigest(s: string) {
    IsTaggedSha256(s, "dsl-json-v1:sha256:") || IsTaggedSha256(s, "ids-xml-v1:sha256:")
  }

  lemma RuleDigestIsCanonical(s: string)
    requires IsRuleDigest(s)
    ensures Canonical(s)
  {
    var tag := if IsTaggedSha256(s, "dsl-json-v1:sha256:") then "dsl-json-v1:sha256:" else "ids-xml-v1:sha256:";
    forall i | 0 <= i < |s| ensures ' ' <= s[i] && s[i] != 127 as char && (i == |s| - 1 ==> !IsSpace(s[i])) {
      if i < |tag| { assert s[i] == s[..|tag|][i] == tag[i]; } else { assert IsHex(s[|tag|..][i - |tag|]); }
    }
    assert s[0] == s[..|tag|][0] == tag[0];
  }

  lemma {:induction false} StartTrimmedAway(s: string) returns (k: nat)
    ensures k <= |s| && TrimStart(s) == s[k..] && forall i | 0 <= i < k :: IsSpace(s[i])
  {
    if s != "" && IsSpace(s[0]) {
      k := StartTrimmedAway(s[1..]);
      assert s[k + 1..] == s[1..][k..];
      forall i | 0 <= i < k + 1 ensures IsSpace(s[i]) { if i > 0 { assert s[1..][i - 1] == s[i]; } }
      k := k + 1;
    } else {
      k := 0;
    }
  }

  /** Nothing is left exactly of white space. */
  lemma TrimmedAway(s: string)
    ensures Trim(s) == "" <==> forall i | 0 <= i < |s| :: IsSpace(s[i])
  {
    var k := StartTrimmedAway(s);
    if k < |s| { NotTrimmedAway(s[k..], 0); }
  }

  lemma {:induction false} NotTrimmedAway(t: string, k: nat)
    requires k < |t| && !IsSpace(t[k])
    ensures TrimEnd(t) != ""
  {
    if IsSpace(t[|t| - 1]) { NotTrimmedAway(t[..|t| - 1], k); }
  }

  lemma {:induction false} EndTrimmedAway(s: string)
    ensures forall i | |TrimEnd(s)| <= i < |s| :: IsSpace(s[i])
  {
    if s != "" && IsSpace(s[|s| - 1]) { EndTrimmedAway(s[..|s| - 1]); }
  }

  /** What trimming leaves: the part between the white space at both ends, which begins and ends with none. */
  lemma TrimIs(s: string) returns (i: nat, j: nat)
    ensures i <= j <= |s| && Trim(s) == s[i..j]
    ensures forall k | 0 <= k < i || j <= k < |s| :: IsSpace(s[k])
    ensures i < j ==> !IsSpace(s[i]) && !IsSpace(s[j - 1])
  {
    hide TrimStart, TrimEnd, IsSpace;
    i := StartTrimmedAway(s);
    var t := s[i..];
    EndTrimmedAway(t);
    j := i + |TrimEnd(t)|;
    assert t[..j - i] == s[i..j];
    forall k | j <= k < |s| ensures IsSpace(s[k]) { assert t[k - i] == s[k]; }
  }

  /** An identifier is 1 to 512 characters, none of them a control character, with no white space at either end. */
  lemma CanonicalExactlyWhen(s: string)
    ensures Canonical(s) <==>
      && 1 <= |s| <= 512 && s[0] != ' ' && s[|s| - 1] != ' '
      && forall i | 0 <= i < |s| :: 32 <= s[i] as int && s[i] as int != 127
  {
    forall i | 0 <= i < |s| ensures s[i] in s { }
  }

  /** A rule content identity is one of two tags with 64 lower-case hexadecimal digits after it. */
  lemma RuleDigestExactlyWhen(s: string)
    ensures IsRuleDigest(s) <==>
      exists tag, hex :: IsTagOf(s, tag, hex) && tag in ["dsl-json-v1:sha256:", "ids-xml-v1:sha256:"]
  {
    var a, b := "dsl-json-v1:sha256:", "ids-xml-v1:sha256:";
    TaggedExactlyWhen(s, a);
    TaggedExactlyWhen(s, b);
    assert [a, b][0] == a && [a, b][1] == b;
  }

  lemma TaggedExactlyWhen(s: string, tag: string)
    ensures IsTaggedSha256(s, tag) <==> exists hex :: IsTagOf(s, tag, hex)
  {
    if IsTaggedSha256(s, tag) {
      var hex := s[|tag|..];
      forall i | 0 <= i < |hex| ensures '0' <= hex[i] <= '9' || hex[i] in ['a', 'b', 'c', 'd', 'e', 'f'] { assert hex[i] in hex; }
      assert IsTagOf(s, tag, hex);
    }
    forall hex | IsTagOf(s, tag, hex) ensures IsTaggedSha256(s, tag) {
      assert s[|tag|..] == hex;
    }
  }

  predicate IsTagOf(s: string, tag: string, hex: string) {
    && s == tag + hex && |hex| == 64
    && forall i | 0 <= i < |hex| :: '0' <= hex[i] <= '9' || hex[i] in ['a', 'b', 'c', 'd', 'e', 'f']
  }
}
