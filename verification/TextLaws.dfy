/** What trimming and the reference format mean, position by position. */
module TextLaws {
  import opened Text

  /** `sha256:` and 64 lower-case hexadecimal digits. */
  predicate IsRef(s: string) {
    |s| == 71 && s[..7] == "sha256:" && forall c :: c in s[7..] ==> c in "0123456789abcdef"
  }

  lemma RefMeans(s: string)
    ensures ValidRef(s) <==> IsRef(s)
  {
    if ValidRef(s) {
      forall c | c in s[7..] ensures c in "0123456789abcdef" {
        HexMeans(c);
      }
    }
    if IsRef(s) {
      forall i | 7 <= i < |s| ensures IsLowerHex(s[i]) {
        assert s[7..][i - 7] == s[i];
        HexMeans(s[i]);
      }
    }
  }

  lemma HexMeans(c: char)
    ensures IsLowerHex(c) <==> c in "0123456789abcdef"
  {
    if IsLowerHex(c) {
      var i := if c <= '9' then (c as int) - ('0' as int) else (c as int) - ('a' as int) + 10;
      assert "0123456789abcdef"[i] == c;
    }
  }

  /** Trimming cuts white space off both ends and nothing else. */
  lemma TrimMeans(s: string) returns (lo: nat, hi: nat)
    ensures lo <= hi <= |s| && Trim(s) == s[lo..hi]
    ensures forall i :: 0 <= i < |s| && (i < lo || i >= hi) ==> IsSpace(s[i])
    ensures lo < hi ==> !IsSpace(s[lo]) && !IsSpace(s[hi - 1])
  {
    hide IsSpace, TrimStart, TrimEnd;
    lo := StartMeans(s);
    var rest := s[lo..];
    var n := EndMeans(rest);
    hi := lo + n;
    assert rest[..n] == s[lo..hi];
    forall i | hi <= i < |s| ensures IsSpace(s[i]) {
      assert rest[i - lo] == s[i];
    }
    if n > 0 {
      assert rest[0] == s[lo] && rest[n - 1] == s[hi - 1];
    }
  }

  /** A text is trimmed already if and only if white space is at neither end. */
  lemma TrimmedIff(s: string)
    ensures Trim(s) == s <==> s == "" || (!IsSpace(s[0]) && !IsSpace(s[|s| - 1]))
  {
    hide IsSpace, Trim;
    var lo, hi := TrimMeans(s);
    assert |s[lo..hi]| == hi - lo;
    if lo == 0 && hi == |s| {
      assert s[lo..hi] == s;
    }
  }

  lemma {:induction false} StartMeans(s: string) returns (lo: nat)
    ensures lo <= |s| && TrimStart(s) == s[lo..] && (lo < |s| ==> !IsSpace(s[lo]))
    ensures forall i :: 0 <= i < lo ==> IsSpace(s[i])
  {
    hide IsSpace;
    lo := 0;
    if s != "" && IsSpace(s[0]) {
      lo := StartMeans(s[1..]);
      assert forall i :: 0 <= i < lo ==> s[1..][i] == s[i + 1];
      lo := lo + 1;
      assert forall i :: 1 <= i < lo ==> s[1..][i - 1] == s[i];
    }
  }

  lemma {:induction false} EndMeans(s: string) returns (n: nat)
    ensures n <= |s| && TrimEnd(s) == s[..n] && (n > 0 ==> !IsSpace(s[n - 1]))
    ensures forall i :: n <= i < |s| ==> IsSpace(s[i])
    decreases |s|
  {
    hide IsSpace;
    n := |s|;
    if s != "" && IsSpace(s[|s| - 1]) {
      n := EndMeans(s[..|s| - 1]);
      assert forall i :: n <= i < |s| - 1 ==> s[..|s| - 1][i] == s[i];
    }
  }
}
