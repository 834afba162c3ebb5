/**
  Formatting of an evaluated result (script.js, the end of `calculate`):
  an integer result is shown as `toString()` gives it; any other result is
  written with eight fraction digits and the regular expression `/\.?0+$/`
  is replaced by nothing, which takes off the trailing zeros and then the
  point if no fraction digit is left.
 */
module Format {
  import opened JsNumber

  predicate AllZeros(u: string) {
    forall i | 0 <= i < |u| :: u[i] == '0'
  }

  /** `u` is matched in full by the pattern `\.?0+`. */
  predicate ZeroTail(u: string) {
    (|u| >= 1 && AllZeros(u)) || (|u| >= 2 && u[0] == '.' && AllZeros(u[1..]))
  }

  /** `t` without its trailing run of `0` characters. */
  function DropZeros(t: string): (r: string)
    ensures r <= t && AllZeros(t[|r|..])
    ensures r == "" || r[|r| - 1] != '0'
  {
    if t != "" && t[|t| - 1] == '0' then
      var r := DropZeros(t[..|t| - 1]);
      assert t[|r|..] == t[..|t| - 1][|r|..] + ['0'];
      r
    else
      t
  }

  /** `t.replace(/\.?0+$/, '')`. */
  function StripTrailingZeros(t: string): (r: string)
    ensures r <= t
  {
    var z := DropZeros(t);
    if |z| == |t| then t
    else if z != "" && z[|z| - 1] == '.' then z[..|z| - 1]
    else z
  }

  /**
    `StripTrailingZeros` does what the regular expression replacement does:
    it cuts `t` at the leftmost position from which the rest of `t` matches
    `\.?0+`, and leaves `t` whole when there is no such position.
   */
  lemma StripRemovesLeftmostMatch(t: string)
    ensures var r := StripTrailingZeros(t);
      && (|r| == |t| || ZeroTail(t[|r|..]))
      && forall q | 0 <= q < |r| :: !ZeroTail(t[q..])
  {
  }

  /**
    On a `toFixed(8)` text the replacement never empties the text, never
    leaves a bare `.` at the end, never leaves a trailing `0` after the point,
    keeps the whole integer part, and keeps at most one point.
   */
  lemma StripFixedText(t: string)
    requires FixedText(t)
    ensures var r := StripTrailingZeros(t);
      && r != ""
      && r[|r| - 1] != '.'
      && ('.' in r ==> r[|r| - 1] != '0')
      && AtMostOneDot(r)
      && (FixedDecimal(t) ==> t[..|t| - 9] <= r)
  {
    var r := StripTrailingZeros(t);
    var z := DropZeros(t);
    if !FixedDecimal(t) {
      assert t[|t| - 1] != '0';
      assert r == t;
    } else {
      var d := |t| - 9;
      var ip := t[..d];
      assert t[d] == '.';
      assert |z| > d;
      forall i | d < i < |t|
        ensures IsDigit(t[i])
      {
        assert t[|t| - 8..][i - d - 1] == t[i];
      }
      var sign := if |ip| > 0 && ip[0] == '-' then 1 else 0;
      forall i | 0 <= i < d
        ensures t[i] != '.' && (i == d - 1 ==> IsDigit(t[i]))
      {
        assert ip[i] == t[i];
        if i >= sign {
          assert ip[sign..][i - sign] == ip[i];
        }
      }
      assert AtMostOneDot(t);
      if |z| == |t| {
        assert r == t;
      } else if z != "" && z[|z| - 1] == '.' {
        assert |z| - 1 == d;
        assert r == ip;
        assert '.' !in r;
      } else {
        assert r == z;
      }
      assert ip <= r;
    }
  }

  /** The text `calculate` stores as the new entry for a computed result. */
  function FormatResult(n: Number): (r: string)
    requires WellFormed(n)
    ensures r != "" && AtMostOneDot(r)
    ensures !n.isInteger ==> r[|r| - 1] != '.' && ('.' in r ==> r[|r| - 1] != '0')
  {
    if n.isInteger then
      n.shortest
    else
      StripFixedText(n.fixed);
      StripTrailingZeros(n.fixed)
  }
}
