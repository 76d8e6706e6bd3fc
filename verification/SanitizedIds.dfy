/**
  Sanitizing the ids a diagram is written with: other characters become
  underscores, outer underscores go, a letter comes first, and 72 characters stay.
 */
module SanitizedIds {

  const LIMIT := 72

  predicate IsLetter(c: char) {
    'a' <= c <= 'z' || 'A' <= c <= 'Z'
  }

  predicate IsIdChar(c: char) {
    IsLetter(c) || '0' <= c <= '9' || c == '_' || c == '-'
  }

  /** The pattern diagrams require of an id. */
  predicate IsId(s: string) {
    |s| > 0 && IsLetter(s[0]) && forall c <- s :: IsIdChar(c)
  }

  function Replaced(s: string): string {
    seq(|s|, i requires 0 <= i < |s| => if IsIdChar(s[i]) then s[i] else '_')
  }

  function TrimLeft(s: string): string {
    if |s| > 0 && s[0] == '_' then TrimLeft(s[1..]) else s
  }

  function TrimRight(s: string): string {
    if |s| > 0 && s[|s| - 1] == '_' then TrimRight(s[..|s| - 1]) else s
  }

  function Cut(s: string): string {
    if |s| <= LIMIT then s else s[..LIMIT]
  }

  /** The text before it is cut; nothing usable becomes "n", and a leading digit or dash is prefixed. */
  function Cleaned(raw: string): string {
    var text := TrimRight(TrimLeft(Replaced(raw)));
    if text == "" then "n" else if IsLetter(text[0]) then text else "n_" + text
  }

  function Sid(raw: string): string {
    Cut(Cleaned(raw))
  }

  /** Ids are made of ASCII letters, digits, underscores and dashes, and start with a letter. */
  lemma {:induction false} CharsAre()
    ensures forall c <- "azAZ" :: IsLetter(c) && IsIdChar(c)
    ensures forall c <- "09_-" :: !IsLetter(c) && IsIdChar(c)
    ensures forall c <- "@[`{/: .,\U{00E9}" :: !IsIdChar(c)
  {
  }

  /** What sanitizing keeps: characters an id may hold stay in place, every other one becomes an underscore. */
  lemma {:induction false} ReplacedAt(s: string, i: nat)
    requires i < |s|
    ensures |Replaced(s)| == |s| && Replaced(s)[i] == if IsIdChar(s[i]) then s[i] else '_'
  {
  }

  /** Trimming takes underscores off both ends and nothing else. */
  lemma {:induction false} TrimIs(s: string) returns (i: nat, j: nat)
    ensures i <= j <= |s| && TrimRight(TrimLeft(s)) == s[i..j]
    ensures forall k :: 0 <= k < i || j <= k < |s| ==> s[k] == '_'
    ensures i < j ==> s[i] != '_' && s[j - 1] != '_'
  {
    i := LeftIs(s);
    var n := RightIs(s[i..]);
    j := i + n;
    assert s[i..][..n] == s[i..j];
    forall k | j <= k < |s| ensures s[k] == '_' {
      assert s[i..][k - i] == s[k];
    }
    if i < j {
      assert s[i..][0] == s[i] && s[i..][n - 1] == s[j - 1];
    }
  }

  lemma {:induction false} LeftIs(s: string) returns (i: nat)
    ensures i <= |s| && TrimLeft(s) == s[i..]
    ensures forall k :: 0 <= k < i ==> s[k] == '_'
    ensures i < |s| ==> s[i] != '_'
  {
    i := 0;
    if |s| > 0 && s[0] == '_' {
      var n := LeftIs(s[1..]);
      i := n + 1;
      assert s[1..][n..] == s[i..];
      forall k | 0 <= k < i ensures s[k] == '_' {
        if k > 0 { assert s[1..][k - 1] == s[k]; }
      }
      if i < |s| { assert s[1..][n] == s[i]; }
    }
  }

  lemma {:induction false} RightIs(s: string) returns (j: nat)
    ensures j <= |s| && TrimRight(s) == s[..j]
    ensures forall k :: j <= k < |s| ==> s[k] == '_'
    ensures j > 0 ==> s[j - 1] != '_'
  {
    j := |s|;
    if |s| > 0 && s[|s| - 1] == '_' {
      var init := s[..|s| - 1];
      j := RightIs(init);
      assert init[..j] == s[..j];
      forall k | j <= k < |s| ensures s[k] == '_' {
        if k < |s| - 1 { assert init[k] == s[k]; }
      }
      if j > 0 { assert init[j - 1] == s[j - 1]; }
    }
  }

  /** The three cases of a sanitized id, before the cut to 72 characters. */
  lemma {:induction false} SidCases(raw: string, core: string)
    requires core == TrimRight(TrimLeft(Replaced(raw)))
    ensures core == "" ==> Sid(raw) == "n"
    ensures core != "" && IsLetter(core[0]) && |core| <= 72 ==> Sid(raw) == core
    ensures core != "" && IsLetter(core[0]) && |core| > 72 ==> Sid(raw) == core[..72]
    ensures core != "" && !IsLetter(core[0]) && |core| <= 70 ==> Sid(raw) == ['n', '_'] + core
    ensures core != "" && !IsLetter(core[0]) && |core| > 70 ==> Sid(raw) == ['n', '_'] + core[..70]
  {
    assert "n_" == ['n', '_'];
  }

  lemma {:induction false} TrimLeftKeeps(s: string)
    requires forall c <- s :: IsIdChar(c)
    ensures forall c <- TrimLeft(s) :: IsIdChar(c)
    ensures TrimLeft(s) == "" || TrimLeft(s)[0] != '_'
    ensures s == "" || s[0] != '_' ==> TrimLeft(s) == s
  {
    if |s| > 0 && s[0] == '_' { TrimLeftKeeps(s[1..]); }
  }

  lemma {:induction false} TrimRightKeeps(s: string)
    requires forall c <- s :: IsIdChar(c)
    ensures forall c <- TrimRight(s) :: IsIdChar(c)
    ensures TrimRight(s) == "" || (TrimRight(s)[|TrimRight(s)| - 1] != '_' && |s| > 0 && TrimRight(s)[0] == s[0])
    ensures s == "" || s[|s| - 1] != '_' ==> TrimRight(s) == s
  {
    if |s| > 0 && s[|s| - 1] == '_' { TrimRightKeeps(s[..|s| - 1]); }
  }

  /** Before the cut the text is an id that does not end in an underscore. */
  lemma {:induction false} CleanedIsId(raw: string)
    ensures IsId(Cleaned(raw)) && Cleaned(raw)[|Cleaned(raw)| - 1] != '_'
  {
    TrimLeftKeeps(Replaced(raw));
    TrimRightKeeps(TrimLeft(Replaced(raw)));
  }

  /** Whatever the input, the result is a well-formed id of at most 72 characters. */
  lemma {:induction false} SidIsId(raw: string)
    ensures IsId(Sid(raw)) && |Sid(raw)| <= LIMIT
  {
    CleanedIsId(raw);
  }

  /** Exactly the ids that sanitizing leaves alone. */
  lemma {:induction false} SidFixesIff(s: string)
    ensures Sid(s) == s <==> IsId(s) && |s| <= LIMIT && s[|s| - 1] != '_'
  {
    if IsId(s) && |s| <= LIMIT {
      assert Replaced(s) == s;
      TrimLeftKeeps(s);
      TrimRightKeeps(s);
      if s[|s| - 1] == '_' { CutLast(s); }
    }
    if Sid(s) == s {
      SidIsId(s);
    }
  }

  lemma {:induction false} TrimRightShrinks(s: string)
    ensures |TrimRight(s)| <= |s|
    ensures |s| > 0 && s[|s| - 1] == '_' ==> |TrimRight(s)| < |s|
  {
    if |s| > 0 && s[|s| - 1] == '_' { TrimRightShrinks(s[..|s| - 1]); }
  }

  lemma {:induction false} CutLast(s: string)
    requires IsId(s) && s[|s| - 1] == '_'
    ensures Sid(s) != s
  {
    assert Replaced(s) == s;
    TrimLeftKeeps(s);
    TrimRightKeeps(s);
    TrimRightShrinks(s);
  }

  /** Sanitizing twice changes something exactly when the cut left an underscore at the end. */
  lemma {:induction false} SidTwiceIff(raw: string)
    ensures Sid(Sid(raw)) == Sid(raw) <==> Sid(raw)[|Sid(raw)| - 1] != '_'
  {
    SidIsId(raw);
    SidFixesIff(Sid(raw));
  }

  /** Which happens: 71 letters, an underscore and one more letter. */
  lemma {:induction false} CutLeavesUnderscore(raw: string)
    requires |raw| == 73 && raw[71] == '_' && raw[72] == 'b' && forall i :: 0 <= i < 71 ==> raw[i] == 'a'
    ensures Sid(raw) == raw[..72] && Sid(Sid(raw)) != Sid(raw)
  {
    assert IsId(raw) by {
      forall c <- raw ensures IsIdChar(c) {
        var i :| 0 <= i < |raw| && raw[i] == c;
      }
    }
    assert Replaced(raw) == raw;
    TrimLeftKeeps(raw);
    TrimRightKeeps(raw);
    SidTwiceIff(raw);
  }
}
