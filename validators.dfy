/**
 * The two field validators of the lead-capture form, written as hand-rolled
 * recognisers over strings. `ValidEmail` is shared with the email gate.
 * The email pattern is matched against the raw field, the phone pattern
 * against the trimmed one.
 */
module Validators {
  import opened Wrappers
  import opened Text

  // ---------------------------------------------------------------------------
  // Email
  // ---------------------------------------------------------------------------

  /** The character class `[^\s@]`. */
  predicate IsAddressChar(c: char)
  {
    c != '@' && !IsJsSpace(c)
  }

  /** Scans `s`, checking every character is in `[^\s@]`. */
  function AllAddressChars(s: string): (b: bool)
    ensures b <==> forall k :: 0 <= k < |s| ==> IsAddressChar(s[k])
  {
    s == [] || (IsAddressChar(s[0]) && AllAddressChars(s[1..]))
  }

  /** Position of the first '@' in `s`, or |s| when there is none. */
  function IndexOfAt(s: string): (i: nat)
    ensures i <= |s|
    ensures forall k :: 0 <= k < i ==> s[k] != '@'
    ensures i < |s| ==> s[i] == '@'
  {
    if s == [] || s[0] == '@' then 0 else 1 + IndexOfAt(s[1..])
  }

  /** Scans `d` for a '.' that is neither its first nor its last character. */
  function HasInnerDot(d: string): (b: bool)
    ensures b <==> exists k :: 0 < k < |d| - 1 && d[k] == '.'
  {
    |d| >= 3 && (d[1] == '.' || HasInnerDot(d[1..]))
  }

  /** An '@' with runs of `[^\s@]` on both sides leaves no white space anywhere. */
  lemma NoSpaceAroundAt(s: string, i: nat)
    requires i < |s| && s[i] == '@' && AllAddressChars(s[..i]) && AllAddressChars(s[i + 1..])
    ensures forall k :: 0 <= k < |s| ==> !IsJsSpace(s[k])
  {
    forall k | 0 <= k < |s| ensures !IsJsSpace(s[k]) {
      if k < i {
        assert s[..i][k] == s[k];
      } else if k > i {
        assert s[i + 1..][k - i - 1] == s[k];
      }
    }
  }

  /**
   * `validateEmail`: split at the first '@', then check the local part and
   * the domain. An accepted address holds no white space at all.
   */
  predicate ValidEmail(s: string)
    ensures ValidEmail(s) ==> forall k :: 0 <= k < |s| ==> !IsJsSpace(s[k])
  {
    var i := IndexOfAt(s);
    if 0 < i < |s| && AllAddressChars(s[..i]) && AllAddressChars(s[i + 1..]) && HasInnerDot(s[i + 1..]) then
      NoSpaceAroundAt(s, i);
      true
    else
      false
  }

  /** A run of characters of `[^\s@]` (empty allowed; the `+` is stated by the caller). */
  ghost predicate AddressWord(x: string)
  {
    forall k :: 0 <= k < |x| ==> IsAddressChar(x[k])
  }

  /** The regular expression read directly: `s` = local "@" host "." tld, each part a non-empty `[^\s@]+`. */
  ghost predicate EmailRegex(s: string)
  {
    exists i, j ::
      && 0 < i && i + 1 < j && j + 1 < |s|
      && s[i] == '@' && s[j] == '.'
      && AddressWord(s[..i]) && AddressWord(s[i + 1..j]) && AddressWord(s[j + 1..])
  }

  /**
   * The shape the pattern describes: no white space, exactly one '@', a
   * non-empty local part, and a '.' in the domain that is neither its first
   * nor its last character.
   */
  ghost predicate EmailShape(s: string)
  {
    && (forall k :: 0 <= k < |s| ==> !IsJsSpace(s[k]))
    && exists i ::
      && 0 < i < |s| && s[i] == '@'
      && (forall k :: 0 <= k < |s| && k != i ==> s[k] != '@')
      && exists j :: i + 1 < j < |s| - 1 && s[j] == '.'
  }

  /** Every string the recogniser accepts has a split the regular expression matches. */
  lemma ValidEmailSound(s: string)
    requires ValidEmail(s)
    ensures EmailRegex(s)
  {
    var i := IndexOfAt(s);
    var d := s[i + 1..];
    var k :| 0 < k < |d| - 1 && d[k] == '.';
    var j := i + 1 + k;
    assert s[j] == '.';
    assert s[i + 1..j] == d[..k];
    assert s[j + 1..] == d[k + 1..];
    assert AddressWord(s[..i]);
    assert AddressWord(s[i + 1..j]);
    assert AddressWord(s[j + 1..]);
  }

  /** Every split the regular expression matches is found by the recogniser. */
  lemma ValidEmailComplete(s: string, i: nat, j: nat)
    requires 0 < i && i + 1 < j && j + 1 < |s| && s[i] == '@' && s[j] == '.'
    requires AddressWord(s[..i]) && AddressWord(s[i + 1..j]) && AddressWord(s[j + 1..])
    ensures ValidEmail(s)
  {
    var d := s[i + 1..];
    forall k | 0 <= k < |d| ensures IsAddressChar(d[k]) {
      if k < j - i - 1 {
        assert d[k] == s[i + 1..j][k];
      } else if k > j - i - 1 {
        assert d[k] == s[j + 1..][k - (j - i)];
      }
    }
    assert d[j - i - 1] == '.';
  }

  /** The recogniser accepts exactly the strings the regular expression matches. */
  lemma ValidEmailIffRegex(s: string)
    ensures ValidEmail(s) <==> EmailRegex(s)
  {
    if ValidEmail(s) {
      ValidEmailSound(s);
    }
    if EmailRegex(s) {
      var i, j :| && 0 < i && i + 1 < j && j + 1 < |s|
                  && s[i] == '@' && s[j] == '.'
                  && AddressWord(s[..i]) && AddressWord(s[i + 1..j]) && AddressWord(s[j + 1..]);
      ValidEmailComplete(s, i, j);
    }
  }

  /** A regular-expression match has the documented shape. */
  lemma EmailRegexShape(s: string, i: nat, j: nat)
    requires 0 < i && i + 1 < j && j + 1 < |s| && s[i] == '@' && s[j] == '.'
    requires AddressWord(s[..i]) && AddressWord(s[i + 1..j]) && AddressWord(s[j + 1..])
    ensures EmailShape(s)
  {
    forall k | 0 <= k < |s| && k != i ensures IsAddressChar(s[k]) {
      if k < i {
        assert s[k] == s[..i][k];
      } else if k < j {
        assert s[k] == s[i + 1..j][k - i - 1];
      } else if k > j {
        assert s[k] == s[j + 1..][k - j - 1];
      }
    }
  }

  /** A string of the documented shape is matched by the regular expression. */
  lemma EmailShapeRegex(s: string, i: nat, j: nat)
    requires forall k :: 0 <= k < |s| ==> !IsJsSpace(s[k])
    requires 0 < i < |s| && s[i] == '@' && (forall k :: 0 <= k < |s| && k != i ==> s[k] != '@')
    requires i + 1 < j < |s| - 1 && s[j] == '.'
    ensures EmailRegex(s)
  {
    assert AddressWord(s[..i]);
    assert AddressWord(s[i + 1..j]);
    assert AddressWord(s[j + 1..]);
  }

  /** The regular expression matches exactly the strings of the documented shape. */
  lemma EmailRegexIffShape(s: string)
    ensures EmailRegex(s) <==> EmailShape(s)
  {
    if EmailRegex(s) {
      var i, j :| && 0 < i && i + 1 < j && j + 1 < |s|
                  && s[i] == '@' && s[j] == '.'
                  && AddressWord(s[..i]) && AddressWord(s[i + 1..j]) && AddressWord(s[j + 1..]);
      EmailRegexShape(s, i, j);
    }
    if EmailShape(s) {
      var i :| && 0 < i < |s| && s[i] == '@'
               && (forall k :: 0 <= k < |s| && k != i ==> s[k] != '@')
               && exists j :: i + 1 < j < |s| - 1 && s[j] == '.';
      var j :| i + 1 < j < |s| - 1 && s[j] == '.';
      EmailShapeRegex(s, i, j);
    }
  }

  // ---------------------------------------------------------------------------
  // UK mobile phone number
  // ---------------------------------------------------------------------------

  /** `[0-9]`. */
  predicate IsDigit(c: char)
  {
    '0' <= c <= '9'
  }

  /** `(\s|\-)`: the optional separator between digit groups. */
  predicate IsSeparator(c: char)
  {
    IsJsSpace(c) || c == '-'
  }

  /** `(\+44\s?7|07)`: the international prefix with an optional gap before the 7, or the national one. */
  datatype PhonePrefix = International(gap: Option<char>) | National

  /** One way of reading a number: prefix, then three 3-digit groups with an optional separator in each of the two gaps. */
  datatype PhoneParse = PhoneParse(
    prefix: PhonePrefix,
    g1: string, sep1: Option<char>,
    g2: string, sep2: Option<char>,
    g3: string)

  function PrefixText(p: PhonePrefix): string
  {
    match p
    case National => "07"
    case International(None) => "+447"
    case International(Some(c)) => "+44" + [c] + "7"
  }

  function SeparatorText(o: Option<char>): string
  {
    match o
    case None => ""
    case Some(c) => [c]
  }

  /** `[0-9]{3}`. */
  predicate IsDigitGroup(g: string)
  {
    |g| == 3 && IsDigit(g[0]) && IsDigit(g[1]) && IsDigit(g[2])
  }

  /** The parse obeys the pattern: the gap is white space, the groups are digits, the separators are `\s` or `-`. */
  predicate WellFormedPhone(p: PhoneParse)
  {
    && (p.prefix.International? && p.prefix.gap.Some? ==> IsJsSpace(p.prefix.gap.value))
    && IsDigitGroup(p.g1) && IsDigitGroup(p.g2) && IsDigitGroup(p.g3)
    && (p.sep1.Some? ==> IsSeparator(p.sep1.value))
    && (p.sep2.Some? ==> IsSeparator(p.sep2.value))
  }

  /** The groups and separators after the prefix, grouped as the recogniser reads them. */
  function GroupsText(p: PhoneParse): string
  {
    (p.g1 + SeparatorText(p.sep1)) + ((p.g2 + SeparatorText(p.sep2)) + p.g3)
  }

  /** The text a parse stands for. */
  function Spell(p: PhoneParse): string
  {
    PrefixText(p.prefix) + GroupsText(p)
  }

  /** Recognises `(\+44\s?7|07)` at the start of `t`; returns the prefix and its length. */
  function ParsePrefix(t: string): (r: Option<(PhonePrefix, nat)>)
    ensures r.Some? ==> r.value.1 <= |t| && t[..r.value.1] == PrefixText(r.value.0)
    ensures r.Some? && r.value.0.International? && r.value.0.gap.Some? ==> IsJsSpace(r.value.0.gap.value)
  {
    if |t| >= 2 && t[0] == '0' && t[1] == '7' then
      Some((National, 2))
    else if |t| >= 4 && t[0] == '+' && t[1] == '4' && t[2] == '4' then
      if t[3] == '7' then Some((International(None), 4))
      else if IsJsSpace(t[3]) && |t| >= 5 && t[4] == '7' then Some((International(Some(t[3])), 5))
      else None
    else
      None
  }

  /** Takes one optional `(\s|\-)` off the front of `t`. */
  function TakeSeparator(t: string): (r: (Option<char>, string))
    ensures t == SeparatorText(r.0) + r.1
    ensures r.0.Some? ==> IsSeparator(r.0.value)
    ensures r.0.None? ==> t == [] || !IsSeparator(t[0])
  {
    if |t| > 0 && IsSeparator(t[0]) then (Some(t[0]), t[1..]) else (None, t)
  }

  /** Reads `[0-9]{3}(\s|\-)?` off the front of `t`: the group, the separator if any, and what follows. */
  function ReadGroup(t: string): (r: Option<(string, Option<char>, string)>)
    ensures r.Some? ==> IsDigitGroup(r.value.0) && (r.value.1.Some? ==> IsSeparator(r.value.1.value))
    ensures r.Some? ==> t == r.value.0 + SeparatorText(r.value.1) + r.value.2
  {
    if |t| >= 3 && IsDigitGroup(t[..3]) then
      var (sep, rest) := TakeSeparator(t[3..]);
      assert t == t[..3] + t[3..];
      Some((t[..3], sep, rest))
    else
      None
  }

  /** Reads what follows the prefix: two groups, each with its optional separator, a final group, end of text. */
  function ParseGroups(prefix: PhonePrefix, t: string): (r: Option<PhoneParse>)
    ensures r.Some? ==> r.value.prefix == prefix && GroupsText(r.value) == t
    ensures r.Some? ==> IsDigitGroup(r.value.g1) && IsDigitGroup(r.value.g2) && IsDigitGroup(r.value.g3)
    ensures r.Some? ==> (r.value.sep1.Some? ==> IsSeparator(r.value.sep1.value))
    ensures r.Some? ==> (r.value.sep2.Some? ==> IsSeparator(r.value.sep2.value))
  {
    match ReadGroup(t)
    case None => None
    case Some((g1, sep1, rest1)) =>
      match ReadGroup(rest1)
      case None => None
      case Some((g2, sep2, rest2)) =>
        if IsDigitGroup(rest2) then Some(PhoneParse(prefix, g1, sep1, g2, sep2, rest2)) else None
  }

  /** The recogniser: the prefix, then the groups, and nothing else. */
  function ParsePhone(t: string): (r: Option<PhoneParse>)
    ensures r.Some? ==> WellFormedPhone(r.value) && Spell(r.value) == t
  {
    match ParsePrefix(t)
    case None => None
    case Some((prefix, n)) =>
      assert t == t[..n] + t[n..];
      ParseGroups(prefix, t[n..])
  }

  /** A well-formed spelling has between 11 and 16 characters. */
  lemma SpellLength(p: PhoneParse)
    requires WellFormedPhone(p)
    ensures 11 <= |Spell(p)| <= 16
  {
  }

  /** `validatePhone`: the pattern is matched against the trimmed text, which then has 11 to 16 characters. */
  predicate ValidPhone(phone: string)
    ensures ValidPhone(phone) ==> 11 <= |Trim(phone)| <= 16
  {
    match ParsePhone(Trim(phone))
    case None => false
    case Some(p) =>
      SpellLength(p);
      true
  }

  /** A separator (or none, before a digit or the end) is taken back off as exactly that. */
  lemma TakeSeparatorOf(sep: Option<char>, rest: string)
    requires sep.Some? ==> IsSeparator(sep.value)
    requires sep.None? ==> rest == [] || IsDigit(rest[0])
    ensures TakeSeparator(SeparatorText(sep) + rest) == (sep, rest)
  {
    var u := SeparatorText(sep) + rest;
    if sep.Some? {
      assert u[0] == sep.value;
      assert u[1..] == rest;
    } else {
      assert u == rest;
    }
  }

  /** A group followed by its separator (or by a digit) is read back as exactly that group and separator. */
  lemma ReadGroupOf(g: string, sep: Option<char>, rest: string)
    requires IsDigitGroup(g) && (sep.Some? ==> IsSeparator(sep.value))
    requires sep.None? ==> rest == [] || IsDigit(rest[0])
    ensures ReadGroup(g + SeparatorText(sep) + rest) == Some((g, sep, rest))
  {
    var t := g + SeparatorText(sep) + rest;
    assert t[..3] == g;
    assert t[3..] == SeparatorText(sep) + rest;
    TakeSeparatorOf(sep, rest);
  }

  /** The prefix of a spelling is read back as itself, whatever digit follows it. */
  lemma ParsePrefixOf(prefix: PhonePrefix, rest: string)
    requires prefix.International? && prefix.gap.Some? ==> IsJsSpace(prefix.gap.value)
    requires |rest| > 0 && IsDigit(rest[0])
    ensures ParsePrefix(PrefixText(prefix) + rest) == Some((prefix, |PrefixText(prefix)|))
  {
    var pre := PrefixText(prefix);
    var t := pre + rest;
    assert t[..|pre|] == pre;
    assert forall k :: 0 <= k < |pre| ==> t[k] == pre[k];
  }

  /** The groups of a well-formed reading are read back as themselves. */
  lemma ParseGroupsOf(p: PhoneParse)
    requires WellFormedPhone(p)
    ensures ParseGroups(p.prefix, GroupsText(p)) == Some(p)
  {
    ReadGroupOf(p.g1, p.sep1, (p.g2 + SeparatorText(p.sep2)) + p.g3);
    ReadGroupOf(p.g2, p.sep2, p.g3);
  }

  /** Every well-formed reading is recognised, and recognised as itself (so a number has one reading). */
  lemma ParsePhoneComplete(p: PhoneParse)
    requires WellFormedPhone(p)
    ensures ParsePhone(Spell(p)) == Some(p)
  {
    var pre := PrefixText(p.prefix);
    var t := Spell(p);
    assert GroupsText(p)[0] == p.g1[0];
    ParsePrefixOf(p.prefix, GroupsText(p));
    assert t[|pre|..] == GroupsText(p);
    ParseGroupsOf(p);
  }

  /** The recogniser accepts exactly the texts some well-formed reading spells. */
  lemma ValidPhoneIff(phone: string)
    ensures ValidPhone(phone) <==> exists p :: WellFormedPhone(p) && Spell(p) == Trim(phone)
  {
    if exists p :: WellFormedPhone(p) && Spell(p) == Trim(phone) {
      var p :| WellFormedPhone(p) && Spell(p) == Trim(phone);
      ParsePhoneComplete(p);
    }
  }

  /** A well-formed spelling passes `validatePhone`: it has no white space at either end, so trimming keeps it. */
  lemma SpelledPhoneValid(p: PhoneParse)
    requires WellFormedPhone(p)
    ensures ValidPhone(Spell(p))
  {
    var t := Spell(p);
    assert t[0] == PrefixText(p.prefix)[0];
    assert t[|t| - 1] == p.g3[2];
    TrimNoSpaceAtEnds(t);
    ParsePhoneComplete(p);
  }

  /** The first format the phone pattern's comment names, "+44 7XXX XXX XXX", is accepted. */
  lemma InternationalFormatAccepted()
    ensures ValidPhone("+44 7123 456 789")
  {
    var p := PhoneParse(International(Some(' ')), "123", Some(' '), "456", Some(' '), "789");
    assert Spell(p) == "+44 7123 456 789";
    SpelledPhoneValid(p);
  }

  /** The second format the phone pattern's comment names, "07XXX XXX XXX", is accepted. */
  lemma SpacedNationalFormatAccepted()
    ensures ValidPhone("07123 456 789")
  {
    var p := PhoneParse(National, "123", Some(' '), "456", Some(' '), "789");
    assert Spell(p) == "07123 456 789";
    SpelledPhoneValid(p);
  }

  /** The third format the phone pattern's comment names, "07XXX-XXX-XXX", is accepted. */
  lemma HyphenatedNationalFormatAccepted()
    ensures ValidPhone("07123-456-789")
  {
    var p := PhoneParse(National, "123", Some('-'), "456", Some('-'), "789");
    assert Spell(p) == "07123-456-789";
    SpelledPhoneValid(p);
  }


  // ---------------------------------------------------------------------------
  // Normal form of an accepted number
  // ---------------------------------------------------------------------------

  /** Drops every `(\s|\-)` separator. */
  function StripSeparators(t: string): (r: string)
    ensures |r| <= |t|
  {
    if t == [] then [] else (if IsSeparator(t[0]) then [] else [t[0]]) + StripSeparators(t[1..])
  }

  /** A leading "+44" written as "0". */
  function NationalForm(u: string): string
  {
    if |u| >= 3 && u[..3] == "+44" then "0" + u[3..] else u
  }

  /** Separators removed, a leading "+44" written as "0". */
  function Normalise(t: string): string
  {
    NationalForm(StripSeparators(t))
  }

  lemma NationalFormOfNational(digits: string)
    ensures NationalForm("07" + digits) == "07" + digits
  {
    var u := "07" + digits;
    if |u| >= 3 {
      assert u[..3][0] == '0';
    }
  }

  lemma NationalFormOfInternational(digits: string)
    ensures NationalForm("+447" + digits) == "07" + digits
  {
    var u := "+447" + digits;
    assert u[..3] == "+44";
    assert u[3..] == "7" + digits;
    assert "0" + ("7" + digits) == "07" + digits;
  }

  lemma {:induction false} StripSeparatorsConcat(a: string, b: string)
    ensures StripSeparators(a + b) == StripSeparators(a) + StripSeparators(b)
  {
    if a == [] {
      assert a + b == b;
    } else {
      assert (a + b)[0] == a[0];
      assert (a + b)[1..] == a[1..] + b;
      StripSeparatorsConcat(a[1..], b);
    }
  }

  lemma {:induction false} StripSeparatorsDigits(g: string)
    requires forall k :: 0 <= k < |g| ==> IsDigit(g[k])
    ensures StripSeparators(g) == g
  {
    if g != [] {
      StripSeparatorsDigits(g[1..]);
    }
  }

  lemma StripSeparatorsSingle(c: char)
    ensures StripSeparators([c]) == if IsSeparator(c) then [] else [c]
  {
    assert [c][1..] == [];
  }

  /** A string without separators is left as it is. */
  lemma {:induction false} StripSeparatorsKeeps(s: string)
    requires forall k :: 0 <= k < |s| ==> !IsSeparator(s[k])
    ensures StripSeparators(s) == s
  {
    if s != [] {
      StripSeparatorsKeeps(s[1..]);
    }
  }

  /** The prefix loses its gap: "07" stays, "+44" [gap] "7" becomes "+447". */
  lemma StripPrefixText(prefix: PhonePrefix)
    requires prefix.International? && prefix.gap.Some? ==> IsJsSpace(prefix.gap.value)
    ensures StripSeparators(PrefixText(prefix)) == if prefix.National? then "07" else "+447"
  {
    match prefix
    case National =>
      StripSeparatorsKeeps("07");
    case International(None) =>
      StripSeparatorsKeeps("+447");
    case International(Some(c)) =>
      StripSeparatorsKeeps("+44");
      StripSeparatorsKeeps("7");
      StripSeparatorsSingle(c);
      StripSeparatorsConcat("+44", [c]);
      assert StripSeparators("+44" + [c]) == "+44";
      StripSeparatorsConcat("+44" + [c], "7");
      assert "+44" + "7" == "+447";
  }

  /** Removing the separators from a group and the separator after it leaves the group. */
  lemma StripGroupThenSeparator(g: string, sep: Option<char>, rest: string)
    requires IsDigitGroup(g) && (sep.Some? ==> IsSeparator(sep.value))
    ensures StripSeparators((g + SeparatorText(sep)) + rest) == g + StripSeparators(rest)
  {
    StripSeparatorsDigits(g);
    if sep.Some? {
      StripSeparatorsSingle(sep.value);
    }
    assert StripSeparators(SeparatorText(sep)) == [];
    StripSeparatorsConcat(g + SeparatorText(sep), rest);
    StripSeparatorsConcat(g, SeparatorText(sep));
  }

  /** Removing the separators from a spelling leaves the prefix and the nine digits. */
  lemma StripSpell(p: PhoneParse)
    requires WellFormedPhone(p)
    ensures StripSeparators(Spell(p))
         == (if p.prefix.National? then "07" else "+447") + (p.g1 + (p.g2 + p.g3))
  {
    var pre := PrefixText(p.prefix);
    var rest1 := (p.g2 + SeparatorText(p.sep2)) + p.g3;
    var rest0 := (p.g1 + SeparatorText(p.sep1)) + rest1;
    StripPrefixText(p.prefix);
    StripSeparatorsDigits(p.g3);
    StripGroupThenSeparator(p.g2, p.sep2, p.g3);
    StripGroupThenSeparator(p.g1, p.sep1, rest1);
    StripSeparatorsConcat(pre, rest0);
  }

  /** A spelling normalises to "07" and its nine digits, whichever prefix it was written with. */
  lemma NormaliseSpell(p: PhoneParse)
    requires WellFormedPhone(p)
    ensures Normalise(Spell(p)) == "07" + (p.g1 + (p.g2 + p.g3))
  {
    var digits := p.g1 + (p.g2 + p.g3);
    StripSpell(p);
    if p.prefix.National? {
      NationalFormOfNational(digits);
    } else {
      NationalFormOfInternational(digits);
    }
  }

  /** "07" followed by the three groups is eleven characters, the last nine digits. */
  lemma NormalFormDigits(p: PhoneParse)
    requires WellFormedPhone(p)
    ensures var n := "07" + (p.g1 + (p.g2 + p.g3));
            |n| == 11 && n[..2] == "07" && forall k :: 2 <= k < 11 ==> IsDigit(n[k])
  {
    var n := "07" + (p.g1 + (p.g2 + p.g3));
    forall k | 2 <= k < 11 ensures IsDigit(n[k]) {
      if k < 5 {
        assert n[k] == p.g1[k - 2];
      } else if k < 8 {
        assert n[k] == p.g2[k - 5];
      } else {
        assert n[k] == p.g3[k - 8];
      }
    }
  }

  /** Every accepted number normalises to "07" followed by exactly nine digits. */
  lemma PhoneNormalForm(phone: string)
    requires ValidPhone(phone)
    ensures var n := Normalise(Trim(phone));
            |n| == 11 && n[..2] == "07" && forall k :: 2 <= k < 11 ==> IsDigit(n[k])
  {
    var t := Trim(phone);
    var p := ParsePhone(t).value;
    assert Spell(p) == t;
    NormaliseSpell(p);
    NormalFormDigits(p);
  }
}
