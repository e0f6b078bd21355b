/**
 * `getEmailFromText`: the first match of the pattern
 * `[a-zA-Z0-9._%+-]+@[a-zA-Z0-9.-]+\.[a-zA-Z]{2,}` in a text, or the empty string.
 * The search is written out as the regular-expression engine runs it (leftmost start, greedy
 * repetition with backtracking), and is proved to find the leftmost, and at that start the
 * longest, substring that the pattern describes.
 */
module Email {
  import opened Wrappers
  import opened Text
  import opened Json

  /** The three character classes of the pattern. */
  datatype Class = Local | Domain | Alpha

  predicate IsLetter(c: char) { 'a' <= c <= 'z' || 'A' <= c <= 'Z' }

  predicate In(c: char, cls: Class) {
    match cls
    case Alpha => IsLetter(c)
    case Domain => IsLetter(c) || IsAsciiDigit(c) || c == '.' || c == '-'
    case Local => IsLetter(c) || IsAsciiDigit(c) || c == '.' || c == '_' || c == '%' || c == '+' || c == '-'
  }

  /** A text the pattern matches in full: local part, `@`, domain, `.`, two or more letters. */
  ghost predicate IsEmail(m: string) {
    exists at, dot | 0 < at && at + 1 < dot && dot + 2 < |m| :: EmailShape(m, at, dot)
  }

  ghost predicate EmailShape(m: string, at: nat, dot: nat)
    requires 0 < at && at + 1 < dot && dot + 2 < |m|
  {
    && (forall k | 0 <= k < at :: In(m[k], Local))
    && m[at] == '@'
    && (forall k | at < k < dot :: In(m[k], Domain))
    && m[dot] == '.'
    && (forall k | dot < k < |m| :: In(m[k], Alpha))
  }

  /** End of the longest run of `cls` characters starting at `i` (a greedy `[...]*`). */
  function RunEnd(s: string, i: nat, cls: Class): (j: nat)
    requires i <= |s|
    ensures i <= j <= |s|
    ensures forall k | i <= k < j :: In(s[k], cls)
    ensures j == |s| || !In(s[j], cls)
    decreases |s| - i
  {
    if i == |s| || !In(s[i], cls) then i else RunEnd(s, i + 1, cls)
  }

  /** A `.` at `d` followed by two letters, all inside the domain run that ends at `e`. */
  predicate TldAt(s: string, d: nat, e: nat)
    requires e <= |s|
  {
    d + 2 < e && s[d] == '.' && IsLetter(s[d + 1]) && IsLetter(s[d + 2])
  }

  /**
   * The last `d` with `lo < d < k` where `\.[a-zA-Z]{2,}` can follow: the point where the greedy
   * domain part, backtracking from the end of its run, first lets the rest of the pattern match.
   */
  function LastTld(s: string, lo: nat, k: nat, e: nat): (r: Option<nat>)
    requires k <= e <= |s|
    ensures r.Some? ==> lo < r.value < k && TldAt(s, r.value, e)
    ensures r.Some? ==> forall d | r.value < d < k :: !TldAt(s, d, e)
    ensures r.None? ==> forall d | lo < d < k :: !TldAt(s, d, e)
    decreases k
  {
    if k <= lo + 1 then None
    else if TldAt(s, k - 1, e) then Some(k - 1)
    else LastTld(s, lo, k - 1, e)
  }

  /** Where a match starting at `i` ends, if the pattern matches there. */
  function MatchAt(s: string, i: nat): Option<nat>
    requires i <= |s|
  {
    var at := RunEnd(s, i, Local);
    if at == i || at == |s| || s[at] != '@' then None
    else
      var e := RunEnd(s, at + 1, Domain);
      match LastTld(s, at + 1, e, e)
      case None => None
      case Some(d) => Some(RunEnd(s, d + 1, Alpha))
  }

  /** The first start position at or after `i` where the pattern matches, with the match's end. */
  function FirstMatch(s: string, i: nat): Option<(nat, nat)>
    requires i <= |s|
    decreases |s| - i
  {
    if i == |s| then None
    else match MatchAt(s, i)
      case Some(t) => Some((i, t))
      case None => FirstMatch(s, i + 1)
  }

  /** The first email-shaped substring of a text, or the empty string. */
  function FirstEmail(s: string): string {
    match FirstMatch(s, 0)
    case Some((a, b)) => if a <= b <= |s| then s[a..b] else ""
    case None => ""
  }

  /**
   * `getEmailFromText(text)`: `text?.match(...)` is undefined for undefined and null; for any
   * other value that is not a string, `.match` is not a function and the call throws.
   */
  function GetEmailFromText(text: Option<Json>): (r: Outcome<string>)
    ensures Nullish(text) ==> r == Returns("")
    ensures r.Throws? <==> !Nullish(text) && !text.value.JStr?
  {
    if Nullish(text) then Returns("")
    else if text.value.JStr? then Returns(FirstEmail(text.value.s))
    else Throws
  }

  // ---------------------------------------------------------------------------------------------
  // What the search finds.

  /** A match found at `i` is an email-shaped substring. */
  lemma MatchAtSound(s: string, i: nat)
    requires i <= |s| && MatchAt(s, i).Some?
    ensures i < MatchAt(s, i).value <= |s| && IsEmail(s[i..MatchAt(s, i).value])
  {
    var at := RunEnd(s, i, Local);
    var e := RunEnd(s, at + 1, Domain);
    var d := LastTld(s, at + 1, e, e).value;
    var t := RunEnd(s, d + 1, Alpha);
    assert In(s[d + 1], Alpha) && In(s[d + 2], Alpha);
    var m := s[i..t];
    assert EmailShape(m, at - i, d - i);
  }

  /** A run reaching exactly up to a character outside the class ends there. */
  lemma RunEndAt(s: string, i: nat, j: nat, cls: Class)
    requires i <= j < |s|
    requires forall k | i <= k < j :: In(s[k], cls)
    requires !In(s[j], cls)
    ensures RunEnd(s, i, cls) == j
  {
  }

  /** The shape of an email-shaped substring `s[i..b]`, read off in the text's own positions. */
  lemma ShapeInText(s: string, i: nat, b: nat, at: nat, dot: nat)
    requires i <= b <= |s| && 0 < at && at + 1 < dot && dot + 2 < b - i
    requires EmailShape(s[i..b], at, dot)
    ensures forall k | i <= k < i + at :: In(s[k], Local)
    ensures s[i + at] == '@' && s[i + dot] == '.'
    ensures forall k | i + at < k < i + dot :: In(s[k], Domain)
    ensures forall k | i + dot < k < b :: In(s[k], Alpha)
  {
    var m := s[i..b];
    forall k | i <= k < b ensures s[k] == m[k - i] { }
  }

  lemma AlphaIsDomain(s: string, lo: nat, hi: nat)
    requires lo <= hi <= |s|
    requires forall k | lo <= k < hi :: In(s[k], Alpha)
    ensures forall k | lo <= k < hi :: In(s[k], Domain)
  {
  }

  /** The search at `i` succeeds once the local part, the `@` and a top-level domain are found. */
  lemma MatchAtFound(s: string, i: nat, at: nat, e: nat, tld: Option<nat>)
    requires i < at < |s| && s[at] == '@' && RunEnd(s, i, Local) == at
    requires RunEnd(s, at + 1, Domain) == e && LastTld(s, at + 1, e, e) == tld && tld.Some?
    ensures MatchAt(s, i) == Some(RunEnd(s, tld.value + 1, Alpha))
  {
  }

  /** The domain run after the `@` of an email-shaped `s[i..b]` covers it, top-level domain included. */
  lemma DomainRunCovers(s: string, at: nat, dd: nat, b: nat)
    requires at + 1 < dd && dd + 2 < b <= |s|
    requires forall k | at < k < dd :: In(s[k], Domain)
    requires s[dd] == '.' && forall k | dd < k < b :: In(s[k], Alpha)
    ensures b <= RunEnd(s, at + 1, Domain) && TldAt(s, dd, RunEnd(s, at + 1, Domain))
  {
    var e := RunEnd(s, at + 1, Domain);
    AlphaIsDomain(s, dd + 1, b);
    assert In(s[dd + 1], Alpha) && In(s[dd + 2], Alpha);
  }

  /** From a top-level domain at or after the pattern's one, the letters run to `b` at least. */
  lemma AlphaRunReaches(s: string, dd: nat, d: nat, b: nat, e: nat)
    requires dd <= d && dd + 2 < b <= e <= |s| && TldAt(s, d, e)
    requires forall k | dd < k < b :: In(s[k], Alpha)
    ensures b <= RunEnd(s, d + 1, Alpha)
  {
    if dd < d {
      assert !In(s[d], Alpha);
    }
  }

  /** The search at `i` matches, up to `b` at least, when `s[i..b]` has the pattern's shape. */
  lemma MatchAtShape(s: string, i: nat, at: nat, dd: nat, b: nat)
    requires i < at && at + 1 < dd && dd + 2 < b <= |s|
    requires forall k | i <= k < at :: In(s[k], Local)
    requires s[at] == '@' && s[dd] == '.'
    requires forall k | at < k < dd :: In(s[k], Domain)
    requires forall k | dd < k < b :: In(s[k], Alpha)
    ensures MatchAt(s, i).Some? && b <= MatchAt(s, i).value
  {
    RunEndAt(s, i, at, Local);
    var e := RunEnd(s, at + 1, Domain);
    DomainRunCovers(s, at, dd, b);
    var tld := LastTld(s, at + 1, e, e);
    MatchAtFound(s, i, at, e, tld);
    AlphaRunReaches(s, dd, tld.value, b, e);
  }

  /** Wherever an email-shaped substring starts, the search matches, and no shorter than it. */
  lemma MatchAtComplete(s: string, i: nat, b: nat)
    requires i <= b <= |s| && IsEmail(s[i..b])
    ensures MatchAt(s, i).Some? && b <= MatchAt(s, i).value
  {
    var at, dot :| 0 < at && at + 1 < dot && dot + 2 < b - i && EmailShape(s[i..b], at, dot);
    ShapeInText(s, i, b, at, dot);
    MatchAtShape(s, i, i + at, i + dot, b);
  }

  /** No email-shaped substring starts at `a`. */
  ghost predicate NoEmailAt(s: string, a: nat)
    requires a <= |s|
  {
    forall b | a <= b <= |s| :: !IsEmail(s[a..b])
  }

  lemma NoMatchNoEmail(s: string, i: nat)
    requires i <= |s| && MatchAt(s, i).None?
    ensures NoEmailAt(s, i)
  {
    forall b | i <= b <= |s| ensures !IsEmail(s[i..b]) {
      if IsEmail(s[i..b]) { MatchAtComplete(s, i, b); }
    }
  }

  lemma EmptyNoEmail(s: string)
    ensures NoEmailAt(s, |s|)
  {
    assert forall b | |s| <= b <= |s| :: |s[|s|..b]| == 0;
  }

  /** The search from `i` finds the leftmost start at or after `i` where an email begins. */
  lemma {:induction false} FirstMatchLeftmost(s: string, i: nat)
    requires i <= |s|
    ensures FirstMatch(s, i).Some? ==>
      && i <= FirstMatch(s, i).value.0 < |s|
      && MatchAt(s, FirstMatch(s, i).value.0) == Some(FirstMatch(s, i).value.1)
      && forall a | i <= a < FirstMatch(s, i).value.0 :: NoEmailAt(s, a)
    ensures FirstMatch(s, i).None? ==> forall a | i <= a <= |s| :: NoEmailAt(s, a)
    decreases |s| - i
  {
    if i == |s| {
      EmptyNoEmail(s);
    } else if MatchAt(s, i).None? {
      FirstMatchLeftmost(s, i + 1);
      NoMatchNoEmail(s, i);
    }
  }

  /**
   * `FirstEmail` is empty exactly when no substring is email-shaped; otherwise it is an
   * email-shaped substring `s[a..b]` with the smallest possible start `a` and, among those
   * starting at `a`, the largest end.
   */
  lemma FirstEmailSpec(s: string)
    ensures FirstEmail(s) == "" <==> forall a, b | 0 <= a <= b <= |s| :: !IsEmail(s[a..b])
    ensures FirstEmail(s) != "" ==> exists a, b | 0 <= a < b <= |s| ::
      && FirstEmail(s) == s[a..b] && IsEmail(s[a..b])
      && (forall a', b' | 0 <= a' < a && a' <= b' <= |s| :: !IsEmail(s[a'..b']))
      && (forall b' | b < b' <= |s| :: !IsEmail(s[a..b']))
  {
    FirstMatchLeftmost(s, 0);
    if FirstMatch(s, 0).Some? {
      var (a, b) := FirstMatch(s, 0).value;
      MatchAtSound(s, a);
      assert FirstEmail(s) == s[a..b];
      forall b' | b < b' <= |s| ensures !IsEmail(s[a..b']) {
        if IsEmail(s[a..b']) { MatchAtComplete(s, a, b'); }
      }
      forall a', b' | 0 <= a' < a && a' <= b' <= |s| ensures !IsEmail(s[a'..b']) {
        assert NoEmailAt(s, a');
      }
    } else {
      forall a, b | 0 <= a <= b <= |s| ensures !IsEmail(s[a..b]) {
        assert NoEmailAt(s, a);
      }
    }
  }

  /** An email-shaped text has exactly one `@`: no class of the pattern admits one. */
  lemma EmailHasOneAt(m: string)
    requires IsEmail(m)
    ensures Count(m, '@') == 1
  {
    var at, dot :| 0 < at && at + 1 < dot && dot + 2 < |m| && EmailShape(m, at, dot);
    forall k | 0 <= k < |m| && k != at ensures m[k] != '@' {
      if k < at { assert In(m[k], Local); }
      else if k < dot { assert In(m[k], Domain); }
      else if k > dot { assert In(m[k], Alpha); }
    }
    SingleCount(m, at, '@');
  }

  /** A text holding `c` at `at` and nowhere else counts it once. */
  lemma SingleCount(m: string, at: nat, c: char)
    requires at < |m| && m[at] == c
    requires forall k | 0 <= k < |m| && k != at :: m[k] != c
    ensures Count(m, c) == 1
  {
    assert m == m[..at] + ([m[at]] + m[at + 1..]);
    CountAbsent(m[..at], c);
    CountAbsent(m[at + 1..], c);
    CountAppend(m[..at], [m[at]] + m[at + 1..], c);
    CountAppend([m[at]], m[at + 1..], c);
  }

  /**
   * `getEmailFromText` gives `''` for undefined, null and texts without a match; otherwise an
   * email-shaped substring of the text with exactly one `@`.
   */
  lemma GetEmailFromTextSpec(text: Option<Json>)
    requires !GetEmailFromText(text).Throws?
    ensures var r := GetEmailFromText(text).value;
      (r == "" <==> Nullish(text) || forall a, b | 0 <= a <= b <= |text.value.s| :: !IsEmail(text.value.s[a..b]))
      && (r != "" ==>
            Count(r, '@') == 1 && exists a, b | 0 <= a <= b <= |text.value.s| :: r == text.value.s[a..b] && IsEmail(text.value.s[a..b]))
  {
    if !Nullish(text) {
      var s := text.value.s;
      FirstEmailSpec(s);
      var r := FirstEmail(s);
      if r != "" {
        var a, b :| 0 <= a < b <= |s| && r == s[a..b] && IsEmail(s[a..b]);
        EmailHasOneAt(r);
      }
    }
  }
}
