/** Python's `str.isspace` per character and `str.strip()` with no argument,
    which the DAG runner applies to a task's output before printing it. */
module PyStr {

  /** The characters Python's `str.strip()` removes: those `str.isspace()`
      accepts (ASCII tab to carriage return, the file/group/record/unit
      separators, space, NEL, NBSP and the Unicode space separators). */
  predicate IsSpace(c: char) {
    var n := c as int;
    || (0x09 <= n <= 0x0D)
    || (0x1C <= n <= 0x20)
    || n == 0x85
    || n == 0xA0
    || n == 0x1680
    || (0x2000 <= n <= 0x200A)
    || n == 0x2028
    || n == 0x2029
    || n == 0x202F
    || n == 0x205F
    || n == 0x3000
  }

  /** Every character of `s` is whitespace. */
  predicate AllSpace(s: string) {
    forall i | 0 <= i < |s| :: IsSpace(s[i])
  }

  /** `s` neither starts nor ends with whitespace. */
  predicate Trimmed(s: string) {
    |s| == 0 || (!IsSpace(s[0]) && !IsSpace(s[|s| - 1]))
  }

  /** `str.lstrip()`: drops the leading whitespace. */
  function LStrip(s: string): (r: string)
    ensures |r| <= |s|
    ensures |r| == 0 || !IsSpace(r[0])
    decreases |s|
  {
    if |s| > 0 && IsSpace(s[0]) then LStrip(s[1..]) else s
  }

  /** `str.rstrip()`: drops the trailing whitespace. */
  function RStrip(s: string): (r: string)
    ensures |r| <= |s|
    ensures |r| == 0 || !IsSpace(r[|r| - 1])
    decreases |s|
  {
    if |s| > 0 && IsSpace(s[|s| - 1]) then RStrip(s[..|s| - 1]) else s
  }

  /** `LStrip` keeps a suffix of its input and cuts whitespace only. */
  lemma {:induction false} LStripCutsOnlySpace(s: string)
    ensures LStrip(s) == s[|s| - |LStrip(s)|..]
    ensures AllSpace(s[..|s| - |LStrip(s)|])
    decreases |s|
  {
    if |s| > 0 && IsSpace(s[0]) {
      LStripCutsOnlySpace(s[1..]);
      var k := |s| - |LStrip(s)|;
      assert s[1..][|s| - 1 - |LStrip(s)|..] == s[k..];
      forall i | 0 <= i < k ensures IsSpace(s[..k][i]) {
        if i > 0 {
          assert s[..k][i] == s[1..][..k - 1][i - 1];
        }
      }
    }
  }

  /** `RStrip` keeps a prefix of its input and cuts whitespace only. */
  lemma {:induction false} RStripCutsOnlySpace(s: string)
    ensures RStrip(s) == s[..|RStrip(s)|]
    ensures AllSpace(s[|RStrip(s)|..])
    decreases |s|
  {
    if |s| > 0 && IsSpace(s[|s| - 1]) {
      var t := s[..|s| - 1];
      RStripCutsOnlySpace(t);
      var k := |RStrip(s)|;
      assert t[..k] == s[..k];
      forall i | k <= i < |s| ensures IsSpace(s[i]) {
        if i < |s| - 1 {
          assert s[i] == t[k..][i - k];
        }
      }
      assert forall i | 0 <= i < |s| - k :: s[k..][i] == s[k + i];
    }
  }

  /** `str.strip()`: strips the leading, then the trailing whitespace. */
  function Strip(s: string): (r: string)
    ensures Trimmed(r)
    ensures |r| <= |s|
  {
    var l := LStrip(s);
    RStripCutsOnlySpace(l);
    RStrip(l)
  }

  /** What `Strip` keeps is a contiguous piece of its input, and what it
      cuts from either end is whitespace only. */
  lemma StripCutsOnlySpace(s: string)
    ensures exists i | 0 <= i <= i + |Strip(s)| <= |s| ::
              && Strip(s) == s[i..i + |Strip(s)|]
              && AllSpace(s[..i])
              && AllSpace(s[i + |Strip(s)|..])
  {
    var l := LStrip(s);
    var r := RStrip(l);
    var i := |s| - |l|;
    LStripCutsOnlySpace(s);
    RStripCutsOnlySpace(l);
    assert r == s[i..i + |r|];
    assert s[i + |r|..] == l[|r|..];
  }

  /** Stripping a whitespace prefix off anything that does not itself start
      with whitespace gives that thing back. */
  lemma {:induction false} LStripPadded(p: string, m: string)
    requires AllSpace(p)
    requires |m| == 0 || !IsSpace(m[0])
    ensures LStrip(p + m) == m
    decreases |p|
  {
    if |p| == 0 {
      assert p + m == m;
    } else {
      assert (p + m)[1..] == p[1..] + m;
      LStripPadded(p[1..], m);
    }
  }

  /** Mirror image of `LStripPadded` for a whitespace suffix. */
  lemma {:induction false} RStripPadded(m: string, q: string)
    requires AllSpace(q)
    requires |m| == 0 || !IsSpace(m[|m| - 1])
    ensures RStrip(m + q) == m
    decreases |q|
  {
    if |q| == 0 {
      assert m + q == m;
    } else {
      assert (m + q)[..|m + q| - 1] == m + q[..|q| - 1];
      RStripPadded(m, q[..|q| - 1]);
    }
  }

  /** `Strip` is characterised by its contract: whatever trimmed core sits
      between whitespace padding is exactly what `Strip` returns. */
  lemma StripOfPadded(p: string, m: string, q: string)
    requires AllSpace(p) && AllSpace(q) && Trimmed(m)
    ensures Strip(p + m + q) == m
  {
    if |m| == 0 {
      assert p + m + q == p + q;
      assert AllSpace(p + q);
      LStripPadded(p + q, "");
      assert p + q + "" == p + q;
      assert RStrip("") == "";
    } else {
      assert p + m + q == p + (m + q);
      LStripPadded(p, m + q);
      RStripPadded(m, q);
    }
  }

  /** Stripping twice is stripping once. */
  lemma StripIdempotent(s: string)
    ensures Strip(Strip(s)) == Strip(s)
  {
  }
}
