/** The date placeholder of a booking-API link and its substitution.

    `link.replace(/\d{4}-\d{2}-\d{2}/, date)` with a non-global regular expression:
    the leftmost ten-character window shaped like an ISO date is replaced, once,
    by `date` read as a JavaScript replacement pattern (`$$`, `$&`, `` $` `` and
    `$'` are expanded; the expression has no capture groups). */
module LinkDate {
  import opened Results

  /** `\d` without the `u` flag: an ASCII decimal digit. */
  predicate IsDigit(c: char) {
    '0' <= c <= '9'
  }

  /** What the date pattern can see of a character. */
  datatype CharClass = Digit | Dash | Other

  function ClassOf(c: char): CharClass {
    if IsDigit(c) then Digit else if c == '-' then Dash else Other
  }

  /** `\d{4}-\d{2}-\d{2}` matches the ten characters of `s` that start at `i`. */
  predicate DateAt(s: string, i: nat) {
    i + 10 <= |s| &&
    IsDigit(s[i]) && IsDigit(s[i + 1]) && IsDigit(s[i + 2]) && IsDigit(s[i + 3]) &&
    s[i + 4] == '-' &&
    IsDigit(s[i + 5]) && IsDigit(s[i + 6]) &&
    s[i + 7] == '-' &&
    IsDigit(s[i + 8]) && IsDigit(s[i + 9])
  }

  /** A string of the `yyyy-MM-dd` shape, as date-fns' `format` produces. */
  predicate IsDateShaped(d: string) {
    |d| == 10 && DateAt(d, 0)
  }

  /** The leftmost match at or after `from`, as the regular expression engine finds it. */
  function FindDateFrom(s: string, from: nat): (r: Option<nat>)
    decreases |s| - from
    ensures r.Some? ==> from <= r.value && DateAt(s, r.value)
    ensures r.Some? ==> forall j :: from <= j < r.value ==> !DateAt(s, j)
    ensures r.None? ==> forall j :: from <= j ==> !DateAt(s, j)
  {
    if |s| < from + 10 then None
    else if DateAt(s, from) then Some(from)
    else FindDateFrom(s, from + 1)
  }

  /** Where a non-global `replace` with the date pattern acts on `s`, if anywhere. */
  function FirstDate(s: string): Option<nat> {
    FindDateFrom(s, 0)
  }

  /** The replacement text that `String.prototype.replace` builds from the pattern `t`
      for a match `matched` preceded by `before` and followed by `after`. A `$` followed
      by a digit or `<` stays literal because the expression has no groups. */
  function Expand(t: string, matched: string, before: string, after: string): (r: string)
    ensures '$' !in t ==> r == t
  {
    if |t| == 0 then ""
    else if t[0] == '$' && 2 <= |t| && t[1] == '$' then "$" + Expand(t[2..], matched, before, after)
    else if t[0] == '$' && 2 <= |t| && t[1] == '&' then matched + Expand(t[2..], matched, before, after)
    else if t[0] == '$' && 2 <= |t| && t[1] == '`' then before + Expand(t[2..], matched, before, after)
    else if t[0] == '$' && 2 <= |t| && t[1] == '\'' then after + Expand(t[2..], matched, before, after)
    else [t[0]] + Expand(t[1..], matched, before, after)
  }

  /** `s.replace(/\d{4}-\d{2}-\d{2}/, repl)`: without a window nothing changes;
      otherwise everything before the first window and everything after it is kept. */
  function ReplaceFirstDate(s: string, repl: string): (r: string)
    ensures FirstDate(s).None? ==> r == s
    ensures FirstDate(s).Some? ==>
      var i := FirstDate(s).value;
      i <= |r| && r[..i] == s[..i] && |s| - i - 10 <= |r| && r[|r| - (|s| - i - 10)..] == s[i + 10..]
  {
    match FirstDate(s)
    case None => s
    case Some(i) =>
      var r := s[..i] + Expand(repl, s[i..i + 10], s[..i], s[i + 10..]) + s[i + 10..];
      assert r[|r| - (|s| - i - 10)..] == s[i + 10..];
      r
  }

  /** `updateLinkDate`: the first date of `link` becomes `today`. */
  function UpdateLinkDate(link: string, today: string): (r: string)
    requires IsDateShaped(today)
    ensures |r| == |link| && FirstDate(r) == FirstDate(link)
    ensures FirstDate(link).None? ==> r == link
    ensures FirstDate(link).Some? ==>
      var i := FirstDate(link).value;
      r == link[..i] + today + link[i + 10..]
  {
    ReplaceWithDatePreservesWindow(link, today);
    ReplaceFirstDate(link, today)
  }

  /** `updateLinkDatePfizer`: the first date of `link` becomes the date 42 days after
      today, computed by the caller. */
  function UpdateLinkDatePfizer(link: string, inSixWeeks: string): (r: string)
    requires IsDateShaped(inSixWeeks)
    ensures |r| == |link| && FirstDate(r) == FirstDate(link)
    ensures FirstDate(link).None? ==> r == link
    ensures FirstDate(link).Some? ==>
      var i := FirstDate(link).value;
      r == link[..i] + inSixWeeks + link[i + 10..]
  {
    ReplaceWithDatePreservesWindow(link, inSixWeeks);
    ReplaceFirstDate(link, inSixWeeks)
  }

  /** A string with no date window comes back unchanged, whatever the replacement. */
  lemma ReplaceWithoutWindow(s: string, repl: string)
    requires forall j :: !DateAt(s, j)
    ensures ReplaceFirstDate(s, repl) == s
  {
  }

  /** Only the leftmost window is touched: the text before it and the text after it
      are kept, and without `$` in the replacement the window becomes exactly `repl`. */
  lemma ReplaceAtFirstWindow(s: string, repl: string, i: nat)
    requires DateAt(s, i)
    requires forall j: nat :: j < i ==> !DateAt(s, j)
    ensures var r := ReplaceFirstDate(s, repl);
      |s[..i]| <= |r| && r[..i] == s[..i] && |s| - i - 10 <= |r| &&
      r[|r| - (|s| - i - 10)..] == s[i + 10..] &&
      ('$' !in repl ==> r == s[..i] + repl + s[i + 10..])
  {
    var r := ReplaceFirstDate(s, repl);
    assert FirstDate(s) == Some(i);
    var mid := Expand(repl, s[i..i + 10], s[..i], s[i + 10..]);
    assert r == s[..i] + mid + s[i + 10..];
    assert r[|r| - (|s| - i - 10)..] == s[i + 10..];
  }

  /** A replacement is a pattern, not plain text: `$&` puts back the date it would
      replace, so the link is unchanged, and `$$` writes a single `$`. */
  lemma ReplacementIsPattern(s: string, i: nat)
    requires FirstDate(s) == Some(i)
    ensures ReplaceFirstDate(s, "$&") == s
    ensures ReplaceFirstDate(s, "$$") == s[..i] + "$" + s[i + 10..]
  {
    var m, b, a := s[i..i + 10], s[..i], s[i + 10..];
    assert "$&"[2..] == "" && "$$"[2..] == "";
    assert Expand("$&", m, b, a) == m;
    assert Expand("$$", m, b, a) == "$";
    assert s[..i] + m + s[i + 10..] == s;
  }

  /** Two date windows agree, offset by offset, on what the pattern sees. */
  lemma WindowsAgree(a: string, i: nat, b: string, j: nat, o: nat)
    requires DateAt(a, i) && DateAt(b, j) && o < 10
    ensures ClassOf(a[i + o]) == ClassOf(b[j + o])
  {
    if o == 4 || o == 7 {
    } else {
      assert o in {0, 1, 2, 3, 5, 6, 8, 9};
    }
  }

  /** Whether the pattern matches depends only on the classes of the characters. */
  lemma SameClassesSameMatches(a: string, b: string, j: nat)
    requires |a| == |b|
    requires forall k :: 0 <= k < |a| ==> ClassOf(a[k]) == ClassOf(b[k])
    ensures DateAt(a, j) == DateAt(b, j)
  {
    if j + 10 <= |a| {
      assert ClassOf(a[j + 4]) == ClassOf(b[j + 4]) && ClassOf(a[j + 7]) == ClassOf(b[j + 7]);
    }
  }

  /** Writing a date over the first window leaves the first window where it was: the
      new digits cannot complete an earlier match, since the pattern only sees digits
      and dashes and the new date has them at the same places as the old one. */
  lemma {:induction false} ReplaceWithDatePreservesWindow(s: string, d: string)
    requires IsDateShaped(d)
    ensures var r := ReplaceFirstDate(s, d);
      |r| == |s| && FirstDate(r) == FirstDate(s) &&
      (FirstDate(s).None? ==> r == s) &&
      (FirstDate(s).Some? ==> r == s[..FirstDate(s).value] + d + s[FirstDate(s).value + 10..])
  {
    var r := ReplaceFirstDate(s, d);
    match FirstDate(s)
    case None =>
    case Some(i) =>
      assert '$' !in d by {
        forall k | 0 <= k < |d| ensures d[k] != '$' {
          WindowsAgree(d, 0, d, 0, k);
        }
      }
      assert r == s[..i] + d + s[i + 10..];
      forall k | 0 <= k < |s| ensures ClassOf(r[k]) == ClassOf(s[k]) {
        if i <= k < i + 10 {
          assert r[k] == d[k - i];
          WindowsAgree(d, 0, s, i, k - i);
        } else if k < i {
          assert r[k] == s[k];
        } else {
          assert r[k] == s[k];
        }
      }
      forall j: nat ensures DateAt(r, j) == DateAt(s, j) {
        SameClassesSameMatches(r, s, j);
      }
      assert DateAt(r, i);
  }

  /** Substituting the same date twice is the same as substituting it once. */
  lemma {:induction false} ReplaceWithDateIdempotent(s: string, d: string)
    requires IsDateShaped(d)
    ensures ReplaceFirstDate(ReplaceFirstDate(s, d), d) == ReplaceFirstDate(s, d)
  {
    var r := ReplaceFirstDate(s, d);
    ReplaceWithDatePreservesWindow(s, d);
    ReplaceWithDatePreservesWindow(r, d);
    match FirstDate(s)
    case None =>
    case Some(i) =>
      calc {
        ReplaceFirstDate(r, d);
        r[..i] + d + r[i + 10..];
        { assert r[..i] == s[..i]; assert r[i + 10..] == s[i + 10..]; }
        s[..i] + d + s[i + 10..];
      }
  }
}
