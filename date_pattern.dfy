/**
 * The "yesterday" date tag of `ApiHandler.get_user_list`.
 *
 * The source builds the regular expression `\[YYYY.MM.DD\]*` from yesterday's
 * date and applies it with `re.match`, which only looks for a match that
 * starts at position 0. This module models the small part of Python's `re`
 * that such a pattern uses (literal characters, backslash escapes of
 * punctuation, `.` and `*`), the pattern string the source builds, and proves
 * which texts it accepts.
 */
module DatePattern {
  import opened Wrappers
  import opened Numerals

  /** A calendar day, as `datetime.date` holds it. */
  datatype Date = Date(year: nat, month: nat, day: nat)

  /** The ranges of `datetime.date` (day-of-month limits are not needed here). */
  predicate InRange(d: Date) {
    1 <= d.year <= 9999 && 1 <= d.month <= 12 && 1 <= d.day <= 31
  }

  // ---------------------------------------------------------------------------
  // A subset of Python regular expressions

  /** One character class: a single literal character, or `.` (anything but a newline). */
  datatype Atom = Literal(c: char) | AnyButNewline

  /** An atom matched exactly once, or `atom*` (zero or more times). */
  datatype Piece = Once(atom: Atom) | Repeated(atom: Atom)

  predicate AtomMatches(a: Atom, c: char) {
    match a
    case Literal(x) => c == x
    case AnyButNewline => c != '\n'
  }

  /** Characters with a special meaning in a Python pattern. */
  predicate IsSpecial(c: char) {
    c == '\\' || c == '.' || c == '^' || c == '$' || c == '*' || c == '+' || c == '?'
    || c == '{' || c == '}' || c == '[' || c == ']' || c == '|' || c == '(' || c == ')'
  }

  predicate IsAsciiAlnum(c: char) {
    ('0' <= c <= '9') || ('a' <= c <= 'z') || ('A' <= c <= 'Z')
  }

  /**
   * The atom at the start of `s` and how many characters it takes. `\` before
   * an ASCII letter or digit is a class or a back-reference in Python and is
   * outside this subset, like every other special character used on its own.
   */
  function ParseAtom(s: string): (r: Option<(Atom, nat)>)
    requires |s| > 0
    ensures r.Some? ==> 1 <= r.value.1 <= |s|
  {
    if s[0] == '\\' then
      if |s| >= 2 && !IsAsciiAlnum(s[1]) then Some((Literal(s[1]), 2)) else None
    else if s[0] == '.' then Some((AnyButNewline, 1))
    else if IsSpecial(s[0]) then None
    else Some((Literal(s[0]), 1))
  }

  predicate IsQuantifierStart(c: char) {
    c == '*' || c == '+' || c == '?' || c == '{'
  }

  /**
   * `re.compile` restricted to the subset: the pieces of pattern `s`, or None
   * when `s` uses anything else (including a quantifier after `*`).
   */
  function Parse(s: string): Option<seq<Piece>>
    decreases |s|
  {
    if s == [] then Some([])
    else match ParseAtom(s)
      case None => None
      case Some((a, k)) =>
        if k < |s| && s[k] == '*' then
          if k + 1 < |s| && IsQuantifierStart(s[k + 1]) then None
          else match Parse(s[k + 1..])
            case None => None
            case Some(ps) => Some([Repeated(a)] + ps)
        else match Parse(s[k..])
          case None => None
          case Some(ps) => Some([Once(a)] + ps)
  }

  /** `pattern.match(s)` is not None: the pieces match some prefix of `s`. */
  predicate MatchPrefix(ps: seq<Piece>, s: string)
    decreases |s|, |ps|
  {
    if ps == [] then true
    else match ps[0]
      case Once(a) => |s| > 0 && AtomMatches(a, s[0]) && MatchPrefix(ps[1..], s[1..])
      case Repeated(a) =>
        MatchPrefix(ps[1..], s) || (|s| > 0 && AtomMatches(a, s[0]) && MatchPrefix(ps, s[1..]))
  }

  // ---------------------------------------------------------------------------
  // The pattern of src/api/api.py:87-88 and its meaning

  /**
   * `yesterday.strftime('\\[%Y.%m.%d\\]') + '*'`: the Python literal `'\\['`
   * is the two characters backslash and `[`.
   */
  function PatternSource(d: Date): string {
    StrftimeTag(Digits(d.year, 4), Digits(d.month, 2), Digits(d.day, 2)) + "*"
  }

  /** `strftime('\\[%Y.%m.%d\\]')` with the three fields already rendered. */
  function StrftimeTag(y: string, m: string, dd: string): string {
    "\\[" + y + "." + m + "." + dd + "\\]"
  }

  /** Whether `pattern.match(text)` succeeds for the pattern compiled from `d`. */
  predicate Accepts(d: Date, text: string) {
    match Parse(PatternSource(d))
    case Some(ps) => MatchPrefix(ps, text)
    case None => false
  }

  /**
   * The acceptance rule in closed form: `[`, the year field, any character
   * but a newline, the month field, any character but a newline, the day
   * field, at the very start of the text; nothing is required after it.
   */
  predicate HasDateTag(d: Date, t: string) {
    TagFields(Digits(d.year, 4), Digits(d.month, 2), Digits(d.day, 2), t)
  }

  /** `t` opens with `[`, then `y`, then what `AfterYearFields` asks for. */
  predicate TagFields(y: string, m: string, dd: string, t: string) {
    |t| >= 1 + |y| && t[0] == '[' && t[1..1 + |y|] == y && AfterYearFields(m, dd, t[1 + |y|..])
  }

  /** `u` opens with a non-newline, then `m`, then what `DayFields` asks for. */
  predicate AfterYearFields(m: string, dd: string, u: string) {
    |u| >= 1 + |m| && u[0] != '\n' && u[1..1 + |m|] == m && DayFields(dd, u[1 + |m|..])
  }

  /** `v` opens with a non-newline, then `dd`. */
  predicate DayFields(dd: string, v: string) {
    |v| >= 1 + |dd| && v[0] != '\n' && v[1..1 + |dd|] == dd
  }

  /** A literal piece per character of `s`. */
  function Literals(s: string): (ps: seq<Piece>)
    ensures |ps| == |s|
  {
    if s == [] then [] else [Once(Literal(s[0]))] + Literals(s[1..])
  }

  /** The pieces `re.compile` makes of `PatternSource(d)`. */
  function TagPieces(d: Date): seq<Piece> {
    FieldPieces(Digits(d.year, 4), Digits(d.month, 2), Digits(d.day, 2))
  }

  /** `\[`, the year, then the rest. */
  function FieldPieces(y: string, m: string, dd: string): seq<Piece> {
    [Once(Literal('['))] + Literals(y) + AfterYearPieces(m, dd)
  }

  /** `.`, the month, then the rest. */
  function AfterYearPieces(m: string, dd: string): seq<Piece> {
    [Once(AnyButNewline)] + Literals(m) + DayPieces(dd)
  }

  /** `.`, the day, `\]*`. */
  function DayPieces(dd: string): seq<Piece> {
    [Once(AnyButNewline)] + Literals(dd) + [Repeated(Literal(']'))]
  }

  function Prepend(ps: seq<Piece>, r: Option<seq<Piece>>): Option<seq<Piece>> {
    match r
    case None => None
    case Some(qs) => Some(ps + qs)
  }

  /** One step of `Parse` on an atom that no `*` follows. */
  lemma ParseOnceStep(s: string, a: Atom, k: nat)
    requires |s| > 0 && ParseAtom(s) == Some((a, k))
    requires !(k < |s| && s[k] == '*')
    ensures Parse(s) == Prepend([Once(a)], Parse(s[k..]))
  {
  }

  /** Prepending twice is prepending the concatenation. */
  lemma PrependTwice(ps: seq<Piece>, qs: seq<Piece>, r: Option<seq<Piece>>)
    ensures Prepend(ps, Prepend(qs, r)) == Prepend(ps + qs, r)
  {
    match r
    case None =>
    case Some(rs) => assert ps + (qs + rs) == (ps + qs) + rs;
  }

  /** A leading digit parses as one literal piece when no `*` follows it. */
  lemma ParseDigitHead(t: string)
    requires |t| > 0 && IsDigit(t[0])
    requires !(1 < |t| && t[1] == '*')
    ensures Parse(t) == Prepend([Once(Literal(t[0]))], Parse(t[1..]))
  {
    assert !IsSpecial(t[0]);
    ParseOnceStep(t, Literal(t[0]), 1);
  }

  /** Digits parse as literals, provided no `*` follows them. */
  lemma {:induction false} ParseDigits(s: string, rest: string)
    requires AllDigits(s)
    requires rest == [] || rest[0] != '*'
    ensures Parse(s + rest) == Prepend(Literals(s), Parse(rest))
  {
    if s == [] {
      assert s + rest == rest;
      match Parse(rest)
      case None =>
      case Some(qs) => assert Literals(s) + qs == qs;
    } else {
      var t := s + rest;
      assert t[0] == s[0] && IsDigit(s[0]);
      assert AllDigits(s[1..]);
      assert t[1..] == s[1..] + rest;
      assert 1 < |t| ==> t[1] != '*' by {
        if |s| > 1 { assert t[1] == s[1]; } else if 1 < |t| { assert t[1] == rest[0]; }
      }
      ParseDigitHead(t);
      ParseDigits(s[1..], rest);
      PrependTwice([Once(Literal(s[0]))], Literals(s[1..]), Parse(rest));
    }
  }

  /** `.` and a numeric field, provided no `*` follows them. */
  lemma ParseDotDigits(x: string, rest: string)
    requires |x| >= 1 && AllDigits(x)
    requires rest == [] || rest[0] != '*'
    ensures Parse("." + (x + rest)) == Prepend([Once(AnyButNewline)] + Literals(x), Parse(rest))
  {
    ParseDigits(x, rest);
    var t := "." + (x + rest);
    assert t[1..] == x + rest;
    ParseOnceStep(t, AnyButNewline, 1);
    match Parse(rest)
    case None =>
    case Some(qs) =>
      assert [Once(AnyButNewline)] + Literals(x) + qs == [Once(AnyButNewline)] + (Literals(x) + qs);
  }

  const ClosingStar := "\\]*"

  lemma ParseDay(dd: string)
    requires |dd| >= 1 && AllDigits(dd)
    ensures Parse("." + (dd + ClosingStar)) == Some(DayPieces(dd))
  {
    assert Parse(ClosingStar) == Some([Repeated(Literal(']'))]) by {
      assert ParseAtom(ClosingStar) == Some((Literal(']'), 2));
      assert ClosingStar[3..] == [];
      assert [Repeated(Literal(']'))] + [] == [Repeated(Literal(']'))];
    }
    ParseDotDigits(dd, ClosingStar);
  }

  lemma ParseAfterYear(m: string, dd: string)
    requires |m| >= 1 && AllDigits(m) && |dd| >= 1 && AllDigits(dd)
    ensures Parse("." + (m + ("." + (dd + ClosingStar)))) == Some(AfterYearPieces(m, dd))
  {
    ParseDay(dd);
    ParseDotDigits(m, "." + (dd + ClosingStar));
  }

  /** What `re.compile` makes of the pattern, for any three numeric fields. */
  lemma ParseFields(y: string, m: string, dd: string)
    requires |y| >= 1 && AllDigits(y) && |m| >= 1 && AllDigits(m) && |dd| >= 1 && AllDigits(dd)
    ensures Parse(StrftimeTag(y, m, dd) + "*") == Some(FieldPieces(y, m, dd))
  {
    var s1 := "." + (m + ("." + (dd + ClosingStar)));
    ParseAfterYear(m, dd);
    var s0 := y + s1;
    assert Parse(s0) == Some(Literals(y) + AfterYearPieces(m, dd)) by { ParseDigits(y, s1); }
    var src := "\\[" + s0;
    assert Parse(src) == Some([Once(Literal('['))] + (Literals(y) + AfterYearPieces(m, dd))) by {
      assert ParseAtom(src) == Some((Literal('['), 2));
      assert src[2..] == s0;
      assert src[2] == y[0];
      ParseOnceStep(src, Literal('['), 2);
    }
    TagSourceShape(y, m, dd);
    assert FieldPieces(y, m, dd) == [Once(Literal('['))] + (Literals(y) + AfterYearPieces(m, dd));
  }

  /** The pattern text, with its concatenations grouped from the right. */
  lemma TagSourceShape(y: string, m: string, dd: string)
    ensures StrftimeTag(y, m, dd) + "*" == "\\[" + (y + ("." + (m + ("." + (dd + ClosingStar)))))
  {
    assert "\\]" + "*" == ClosingStar;
  }

  /** What `re.compile` makes of the pattern the source builds. */
  lemma ParsePatternSource(d: Date)
    ensures Parse(PatternSource(d)) == Some(TagPieces(d))
  {
    ParseFields(Digits(d.year, 4), Digits(d.month, 2), Digits(d.day, 2));
  }

  /** One step of `MatchPrefix` on a piece matched once. */
  lemma MatchOnceStep(a: Atom, rest: seq<Piece>, t: string)
    ensures MatchPrefix([Once(a)] + rest, t) <==> |t| > 0 && AtomMatches(a, t[0]) && MatchPrefix(rest, t[1..])
  {
    var ps := [Once(a)] + rest;
    assert ps[0] == Once(a) && ps[1..] == rest;
  }

  /** Literal pieces match exactly the same characters at the front of the text. */
  lemma {:induction false} MatchLiterals(s: string, rest: seq<Piece>, t: string)
    ensures MatchPrefix(Literals(s) + rest, t)
        <==> |t| >= |s| && t[..|s|] == s && MatchPrefix(rest, t[|s|..])
  {
    if s == [] {
      assert Literals(s) + rest == rest;
      assert t[0..] == t;
    } else {
      assert Literals(s) + rest == [Once(Literal(s[0]))] + (Literals(s[1..]) + rest);
      MatchOnceStep(Literal(s[0]), Literals(s[1..]) + rest, t);
      if |t| > 0 {
        MatchLiterals(s[1..], rest, t[1..]);
        if |t| >= |s| {
          assert t[1..][|s| - 1..] == t[|s|..];
          assert t[..|s|] == [t[0]] + t[1..][..|s| - 1];
          assert s == [s[0]] + s[1..];
        }
      }
    }
  }

  /** A non-newline character, then literal pieces. */
  lemma MatchDotLiterals(x: string, rest: seq<Piece>, u: string)
    ensures MatchPrefix([Once(AnyButNewline)] + Literals(x) + rest, u)
        <==> |u| >= 1 + |x| && u[0] != '\n' && u[1..1 + |x|] == x && MatchPrefix(rest, u[1 + |x|..])
  {
    var ps := [Once(AnyButNewline)] + Literals(x) + rest;
    assert ps[0] == Once(AnyButNewline);
    assert ps[1..] == Literals(x) + rest;
    if |u| >= 1 {
      MatchLiterals(x, rest, u[1..]);
      if |u| >= 1 + |x| {
        assert u[1..][..|x|] == u[1..1 + |x|];
        assert u[1..][|x|..] == u[1 + |x|..];
      }
    }
  }

  lemma MatchDay(dd: string, v: string)
    ensures MatchPrefix(DayPieces(dd), v) <==> DayFields(dd, v)
  {
    var star := [Repeated(Literal(']'))];
    MatchDotLiterals(dd, star, v);
    if |v| >= 1 + |dd| {
      assert star[1..] == [];
      assert MatchPrefix(star, v[1 + |dd|..]);
    }
  }

  lemma MatchAfterYear(m: string, dd: string, u: string)
    ensures MatchPrefix(AfterYearPieces(m, dd), u) <==> AfterYearFields(m, dd, u)
  {
    MatchDotLiterals(m, DayPieces(dd), u);
    if |u| >= 1 + |m| {
      MatchDay(dd, u[1 + |m|..]);
    }
  }

  /** The compiled pieces accept exactly the texts of the closed form. */
  lemma MatchFieldPieces(y: string, m: string, dd: string, t: string)
    ensures MatchPrefix(FieldPieces(y, m, dd), t) <==> TagFields(y, m, dd, t)
  {
    var all := FieldPieces(y, m, dd);
    assert all[0] == Once(Literal('['));
    assert all[1..] == Literals(y) + AfterYearPieces(m, dd);
    if |t| >= 1 {
      MatchLiterals(y, AfterYearPieces(m, dd), t[1..]);
      if |t| >= 1 + |y| {
        assert t[1..][..|y|] == t[1..1 + |y|];
        assert t[1..][|y|..] == t[1 + |y|..];
        MatchAfterYear(m, dd, t[1 + |y|..]);
      }
    }
  }

  /**
   * What `pattern.match(text)` accepts, for the pattern built at
   * src/api/api.py:88: exactly the texts with the closed-form tag at the start.
   */
  lemma AcceptsIffTag(d: Date, text: string)
    ensures Accepts(d, text) <==> HasDateTag(d, text)
  {
    ParsePatternSource(d);
    MatchFieldPieces(Digits(d.year, 4), Digits(d.month, 2), Digits(d.day, 2), text);
  }

  /**
   * For a real date the test reads the first 11 characters: `[`, the 4-digit
   * year, one non-newline character, the 2-digit month, one non-newline
   * character, the 2-digit day. The closing `]` is optional.
   */
  lemma AcceptsFirstEleven(d: Date, text: string)
    requires InRange(d)
    ensures Accepts(d, text) <==>
      |text| >= 11 && text[0] == '[' && text[1..5] == Digits(d.year, 4) && text[5] != '\n'
      && text[6..8] == Digits(d.month, 2) && text[8] != '\n' && text[9..11] == Digits(d.day, 2)
  {
    AcceptsIffTag(d, text);
    DigitsWidth(d.year, 4);
    DigitsWidth(d.month, 2);
    DigitsWidth(d.day, 2);
    if |text| >= 11 {
      var u := text[5..];
      var v := u[3..];
      assert u[1..3] == text[6..8];
      assert v[1..3] == text[9..11];
      assert u[0] == text[5] && v[0] == text[8];
    }
  }

  /** The tag counts only at position 0: a text that does not open with `[` is rejected. */
  lemma OnlyAtStart(d: Date, lead: string, rest: string)
    requires |lead| > 0 && lead[0] != '['
    ensures !Accepts(d, lead + rest)
  {
    AcceptsIffTag(d, lead + rest);
    assert (lead + rest)[0] == lead[0];
  }

  /** The tag written the canonical way, `[YYYY.MM.DD]`. */
  function CanonicalTag(d: Date): string {
    "[" + Digits(d.year, 4) + "." + Digits(d.month, 2) + "." + Digits(d.day, 2) + "]"
  }

  /**
   * A message opening with the canonical tag of date `e` qualifies iff `e`
   * is yesterday: today's tag, or any other day's, is rejected.
   */
  lemma CanonicalTagAcceptedIffSameDay(d: Date, e: Date, rest: string)
    requires InRange(d) && InRange(e)
    ensures Accepts(d, CanonicalTag(e) + rest) <==> d == e
  {
    var t := CanonicalTag(e) + rest;
    DigitsWidth(e.year, 4);
    DigitsWidth(e.month, 2);
    DigitsWidth(e.day, 2);
    assert t[1..5] == Digits(e.year, 4);
    assert t[6..8] == Digits(e.month, 2);
    assert t[9..11] == Digits(e.day, 2);
    assert t[0] == '[' && t[5] == '.' && t[8] == '.';
    AcceptsFirstEleven(d, t);
    if Accepts(d, t) {
      DigitsInjective(d.year, e.year, 4);
      DigitsInjective(d.month, e.month, 2);
      DigitsInjective(d.day, e.day, 2);
    }
  }

  /**
   * The unescaped dots and the optional `]`: `[YYYY-MM/DD` followed by
   * anything qualifies as well, for any two non-newline separators.
   */
  lemma LooseSeparatorsAccepted(d: Date, sep1: char, sep2: char, rest: string)
    requires sep1 != '\n' && sep2 != '\n'
    ensures Accepts(d, "[" + (Digits(d.year, 4) + ([sep1] + (Digits(d.month, 2) + ([sep2] + (Digits(d.day, 2) + rest))))))
  {
    var y, m, dd := Digits(d.year, 4), Digits(d.month, 2), Digits(d.day, 2);
    SeparatedFields(y, m, dd, sep1, sep2, rest);
    AcceptsIffTag(d, "[" + (y + ([sep1] + (m + ([sep2] + (dd + rest))))));
  }

  /** The closed form holds for any fields separated by two non-newlines. */
  lemma SeparatedFields(y: string, m: string, dd: string, sep1: char, sep2: char, rest: string)
    requires sep1 != '\n' && sep2 != '\n'
    ensures TagFields(y, m, dd, "[" + (y + ([sep1] + (m + ([sep2] + (dd + rest))))))
  {
    var v := [sep2] + (dd + rest);
    var u := [sep1] + (m + v);
    var t := "[" + (y + u);
    assert DayFields(dd, v) by {
      assert v[1..1 + |dd|] == dd;
    }
    assert AfterYearFields(m, dd, u) by {
      assert u[1..1 + |m|] == m && u[1 + |m|..] == v;
    }
    assert t[1..1 + |y|] == y && t[1 + |y|..] == u;
  }
}
