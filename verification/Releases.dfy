/** What publication and the distribution gate have in common. */
module Releases {
  datatype Channel = Alpha | Beta | Stable

  /** A full Git commit id. */
  predicate IsRevision(s: string) {
    |s| == 40 && forall i :: 0 <= i < 40 ==> '0' <= s[i] <= '9' || 'a' <= s[i] <= 'f'
  }

  /** The run names the very revision and repository that the verdict was given for. */
  predicate Identity(revision: string, repository: string, wantedRevision: string, wantedRepository: string) {
    IsRevision(wantedRevision) && revision == wantedRevision && repository == wantedRepository
  }

  predicate LowerHex(c: char) {
    c in "0123456789abcdef"
  }

  lemma {:induction false} HexDigit(c: char)
    ensures LowerHex(c) <==> '0' <= c <= '9' || 'a' <= c <= 'f'
  {
    if '0' <= c <= '9' {
      assert "0123456789abcdef"[c as int - '0' as int] == c;
    } else if 'a' <= c <= 'f' {
      assert "0123456789abcdef"[c as int - 'a' as int + 10] == c;
    }
  }

  /** A commit id is 40 lower-case hexadecimal digits. */
  lemma {:induction false} HexDigits(s: string)
    ensures IsRevision(s) <==> |s| == 40 && forall c :: c in s ==> LowerHex(c)
  {
    assert forall c: char :: LowerHex(c) <==> '0' <= c <= '9' || 'a' <= c <= 'f' by {
      forall c: char ensures LowerHex(c) <==> '0' <= c <= '9' || 'a' <= c <= 'f' { HexDigit(c); }
    }
    if IsRevision(s) {
      forall c | c in s ensures LowerHex(c) {
        var i :| 0 <= i < |s| && s[i] == c;
      }
    } else if |s| == 40 {
      var i :| 0 <= i < 40 && !('0' <= s[i] <= '9' || 'a' <= s[i] <= 'f');
      assert s[i] in s && !LowerHex(s[i]);
    }
  }
}
