/** Names that hold as file names on every platform. */
module FileNames {
  import opened Text

  datatype NameProblem = Separator | Unportable

  const RESERVED_CHARS := "<>:\"|?*"

  const RESERVED_STEMS := [
    "CON", "PRN", "AUX", "NUL", "COM1", "COM2", "COM3", "COM4", "COM5", "COM6", "COM7", "COM8",
    "COM9", "LPT1", "LPT2", "LPT3", "LPT4", "LPT5", "LPT6", "LPT7", "LPT8", "LPT9"]

  const REPLACEMENT := '-'

  predicate IsSeparator(c: char) { c == '/' || c == '\\' }

  predicate IsBadChar(c: char) { IsControl(c) || c in RESERVED_CHARS }

  predicate EndsBadly(name: string) { name != "" && (name[|name| - 1] == '.' || name[|name| - 1] == ' ') }

  function Lower(c: char): char { if 'A' <= c <= 'Z' then (c as int + 32) as char else c }

  predicate EqIgnoreAsciiCase(a: string, b: string) {
    |a| == |b| && forall k :: 0 <= k < |a| ==> Lower(a[k]) == Lower(b[k])
  }

  function Stem(name: string): string { TrimEnd(name[..IndexOf(name, '.')]) }

  predicate IsReserved(stem: string) { exists r :: r in RESERVED_STEMS && EqIgnoreAsciiCase(stem, r) }

  predicate HasReservedStem(name: string) { IsReserved(Stem(name)) }

  function Problem(name: string): Option<NameProblem> {
    if exists k :: 0 <= k < |name| && IsSeparator(name[k]) then Some(Separator)
    else if (exists k :: 0 <= k < |name| && IsBadChar(name[k]))
            || EndsBadly(name) || HasReservedStem(name) then Some(Unportable)
    else None
  }

  function Replaced(c: char): char { if IsSeparator(c) || IsBadChar(c) then REPLACEMENT else c }

  function Mapped(name: string): string { seq(|name|, k requires 0 <= k < |name| => Replaced(name[k])) }

  /** The longest prefix that does not end in a dot or a space. */
  function Stripped(name: string): (r: string)
    ensures |r| <= |name| && r == name[..|r|] && !EndsBadly(r)
    ensures forall k :: |r| <= k < |name| ==> name[k] == '.' || name[k] == ' '
  {
    if EndsBadly(name) then Stripped(name[..|name| - 1]) else name
  }

  /** The name once every refused character is replaced and every refused ending gone. */
  function Cleaned(name: string): string { Stripped(Mapped(name)) }

  function SanitizedSpec(name: string): string {
    if HasReservedStem(Cleaned(name)) then Cleaned(name) + [REPLACEMENT] else Cleaned(name)
  }

  method Sanitized(name: string) returns (out: string)
    ensures out == SanitizedSpec(name)
    ensures Problem(out) == None <==> !(HasReservedStem(Cleaned(name)) && '.' in Cleaned(name))
  {
    out := Mapped(name);
    while EndsBadly(out)
      invariant Stripped(out) == Cleaned(name)
      decreases |out|
    {
      out := out[..|out| - 1];
    }
    if HasReservedStem(out) {
      out := out + [REPLACEMENT];
    }
    SanitizedIsPortableIff(name);
  }

  /** A character no portable name holds. */
  predicate IsRefused(c: char) {
    c in ['/', '\\', '<', '>', ':', '"', '|', '?', '*'] || c <= '\U{1F}' || '\U{7F}' <= c <= '\U{9F}'
  }

  lemma RefusedIs(c: char)
    ensures IsRefused(c) <==> IsSeparator(c) || IsBadChar(c)
  {
    assert RESERVED_CHARS == ['<', '>', ':', '"', '|', '?', '*'];
  }

  /**
   * What sanitizing keeps: all but the trailing dots and spaces, a `-` for each refused character,
   * and perhaps one more `-` after it.
   */
  lemma SanitizedKeeps(name: string) returns (n: nat)
    ensures n <= |name| && (forall k :: n <= k < |name| ==> name[k] == '.' || name[k] == ' ')
    ensures n > 0 ==> name[n - 1] != '.' && name[n - 1] != ' '
    ensures var out := SanitizedSpec(name);
            && (|out| == n || (|out| == n + 1 && out[n] == '-'))
            && (forall k :: 0 <= k < n ==> out[k] == if IsRefused(name[k]) then '-' else name[k])
  {
    var cleaned := Cleaned(name);
    n := |cleaned|;
    forall k | 0 <= k < |name|
      ensures Mapped(name)[k] == if IsRefused(name[k]) then '-' else name[k]
    {
      RefusedIs(name[k]);
    }
    assert forall k :: 0 <= k < n ==> cleaned[k] == Mapped(name)[k];
  }

  const DEVICES := ["con", "prn", "aux", "nul"]

  /** The device names of Windows, in any case. */
  predicate IsDevice(stem: string) {
    || (|stem| == 3 && LowerCase(stem) in DEVICES)
    || (|stem| == 4 && LowerCase(stem[..3]) in ["com", "lpt"] && '1' <= stem[3] <= '9')
  }

  function LowerCase(s: string): string { seq(|s|, k requires 0 <= k < |s| => Lower(s[k])) }

  lemma EqIsLowerCase(a: string, b: string)
    ensures EqIgnoreAsciiCase(a, b) <==> LowerCase(a) == LowerCase(b)
  {
    var x, y := LowerCase(a), LowerCase(b);
    if EqIgnoreAsciiCase(a, b) {
      assert x == y;
    }
    if x == y {
      assert |x| == |a| && |y| == |b|;
      assert forall k :: 0 <= k < |a| ==> Lower(a[k]) == x[k] == y[k] == Lower(b[k]);
    }
  }

  lemma PlainStems(i: nat)
    requires i < 4
    ensures |RESERVED_STEMS[i]| == 3 && LowerCase(RESERVED_STEMS[i]) == DEVICES[i]
  {
    var lower, r := DEVICES[i], RESERVED_STEMS[i];
    assert |r| == 3 == |lower|;
    assert LowerCase(r)[0] == lower[0] && LowerCase(r)[1] == lower[1] && LowerCase(r)[2] == lower[2];
    assert LowerCase(r) == lower;
  }

  lemma NumberedStems(i: nat)
    requires 4 <= i < 22
    ensures var r := RESERVED_STEMS[i];
            && |r| == 4 && r[3] == (('1' as int + (i - 4) % 9) as char)
            && LowerCase(r[..3]) == if i < 13 then "com" else "lpt"
  {
    var r := RESERVED_STEMS[i];
    var lower := if i < 13 then "com" else "lpt";
    assert |r| == 4;
    assert LowerCase(r[..3])[0] == lower[0] && LowerCase(r[..3])[1] == lower[1] && LowerCase(r[..3])[2] == lower[2];
  }

  lemma LowerCaseOfFour(stem: string)
    requires |stem| == 4
    ensures LowerCase(stem) == LowerCase(stem[..3]) + [Lower(stem[3])]
  {
  }

  /** A numbered stem is reserved with any of its nine digits, and with no other character. */
  lemma NumberedIffDevice(stem: string, i: nat)
    requires 4 <= i < 22 && |stem| == 4
    ensures EqIgnoreAsciiCase(stem, RESERVED_STEMS[i])
       <==> LowerCase(stem[..3]) == (if i < 13 then "com" else "lpt") && stem[3] as int == '1' as int + (i - 4) % 9
  {
    var r := RESERVED_STEMS[i];
    NumberedStems(i);
    EqIsLowerCase(stem, r);
    LowerCaseOfFour(stem);
    LowerCaseOfFour(r);
    var a, b := LowerCase(stem), LowerCase(r);
    assert a[..3] == LowerCase(stem[..3]) && b[..3] == LowerCase(r[..3]) && a[3] == Lower(stem[3]);
  }

  lemma ReservedIffDevice(stem: string)
    ensures IsReserved(stem) <==> IsDevice(stem)
  {
    if IsReserved(stem) {
      var r :| r in RESERVED_STEMS && EqIgnoreAsciiCase(stem, r);
      var i :| 0 <= i < |RESERVED_STEMS| && RESERVED_STEMS[i] == r;
      EqIsLowerCase(stem, r);
      if i < 4 {
        PlainStems(i);
      } else {
        NumberedStems(i);
        NumberedIffDevice(stem, i);
      }
    }
    if IsDevice(stem) {
      if |stem| == 3 {
        PlainDeviceIsReserved(stem);
      } else {
        NumberedDeviceIsReserved(stem);
      }
    }
  }

  lemma PlainDeviceIsReserved(stem: string)
    requires LowerCase(stem) in DEVICES
    ensures IsReserved(stem)
  {
    var i :| 0 <= i < |DEVICES| && DEVICES[i] == LowerCase(stem);
    PlainStems(i);
    EqIsLowerCase(stem, RESERVED_STEMS[i]);
    assert RESERVED_STEMS[i] in RESERVED_STEMS;
  }

  lemma NumberedDeviceIsReserved(stem: string)
    requires |stem| == 4 && LowerCase(stem[..3]) in ["com", "lpt"] && '1' <= stem[3] <= '9'
    ensures IsReserved(stem)
  {
    var i := (if LowerCase(stem[..3]) == "com" then 4 else 13) + (stem[3] as int - '1' as int);
    NumberedIffDevice(stem, i);
    assert RESERVED_STEMS[i] in RESERVED_STEMS;
  }

  /** What is wrong with a name, in characters and device names. */
  lemma ProblemIs(name: string)
    ensures Problem(name) == Some(Separator) <==> '/' in name || '\\' in name
    ensures Problem(name) == None
       <==> && (forall c :: c in name ==> !IsRefused(c))
            && (name != "" ==> name[|name| - 1] != '.' && name[|name| - 1] != ' ')
            && !IsDevice(TrimEnd(name[..IndexOf(name, '.')]))
  {
    forall c ensures IsRefused(c) <==> IsSeparator(c) || IsBadChar(c) { RefusedIs(c); }
    ReservedIffDevice(Stem(name));
    assert forall k :: 0 <= k < |name| ==> name[k] in name;
  }

  predicate AllGood(name: string) { forall k :: 0 <= k < |name| ==> !IsSeparator(name[k]) && !IsBadChar(name[k]) }

  lemma ProblemMeans(name: string)
    ensures Problem(name) == None <==> AllGood(name) && !EndsBadly(name) && !HasReservedStem(name)
  {
  }

  lemma CleanedIsGood(name: string)
    ensures AllGood(Cleaned(name)) && !EndsBadly(Cleaned(name))
  {
    assert forall k :: 0 <= k < |Cleaned(name)| ==> Cleaned(name)[k] == Mapped(name)[k];
  }

  lemma StemsEndInLetterOrDigit(r: string)
    requires r in RESERVED_STEMS
    ensures r != "" && Lower(r[|r| - 1]) != REPLACEMENT
  {
    var k :| 0 <= k < |RESERVED_STEMS| && RESERVED_STEMS[k] == r;
  }

  /** An added replacement lifts the name out of the reserved stems unless a dot comes before it. */
  lemma ReplacementHelpsIffNoDot(name: string)
    requires HasReservedStem(name)
    ensures HasReservedStem(name + [REPLACEMENT]) <==> '.' in name
  {
    var longer := name + [REPLACEMENT];
    if '.' in name {
      IndexOfConcat(name, [REPLACEMENT], '.');
      assert longer[..IndexOf(name, '.')] == name[..IndexOf(name, '.')];
    } else {
      assert forall k :: 0 <= k < |longer| ==> longer[k] != '.' by {
        assert forall k :: 0 <= k < |name| ==> name[k] in name;
      }
      assert Stem(longer) == longer;
      forall r | r in RESERVED_STEMS ensures !EqIgnoreAsciiCase(longer, r) {
        StemsEndInLetterOrDigit(r);
      }
    }
  }

  /**
   * A sanitized name has no separator, control or reserved character and no trailing dot or space;
   * it is portable unless a reserved stem is followed by a dot.
   */
  lemma SanitizedIsPortableIff(name: string)
    ensures var out := SanitizedSpec(name);
            && AllGood(out) && !EndsBadly(out)
            && (Problem(out) == None <==> !(HasReservedStem(Cleaned(name)) && '.' in Cleaned(name)))
  {
    CleanedIsGood(name);
    ProblemMeans(SanitizedSpec(name));
    if HasReservedStem(Cleaned(name)) {
      ReplacementHelpsIffNoDot(Cleaned(name));
    }
  }

  /** The names sanitizing leaves alone are exactly the names without a problem. */
  lemma FixedIffPortable(name: string)
    ensures SanitizedSpec(name) == name <==> Problem(name) == None
  {
    ProblemMeans(name);
    CleanedIsGood(name);
    if AllGood(name) && !EndsBadly(name) {
      assert Mapped(name) == name;
    } else {
      CleanedDiffers(name);
    }
  }

  lemma CleanedDiffers(name: string)
    requires !AllGood(name) || EndsBadly(name)
    ensures SanitizedSpec(name) != name
  {
    SanitizedIsPortableIff(name);
  }

  lemma StemOf(stem: string, extension: string)
    requires '.' !in stem && stem != "" && !IsWhitespace(stem[|stem| - 1])
    ensures Stem(stem + ['.'] + extension) == stem
  {
    var name := stem + ['.'] + extension;
    assert name[|stem|] == '.';
    assert forall k :: 0 <= k < |stem| ==> name[k] == stem[k] && stem[k] in stem;
    assert name[..|stem|] == stem;
  }

  /** A reserved stem and an extension that is fine by itself. */
  predicate ReservedWithExtension(stem: string, extension: string) {
    && IsReserved(stem) && IsPlainStem(stem)
    && AllGood(extension) && extension != "" && !EndsBadly(extension)
  }

  predicate IsPlainStem(stem: string) {
    AllGood(stem) && '.' !in stem && stem != "" && !IsWhitespace(stem[|stem| - 1])
  }

  lemma DottedNameIsGood(stem: string, extension: string)
    requires ReservedWithExtension(stem, extension)
    ensures var name := stem + ['.'] + extension;
            AllGood(name) && !EndsBadly(name) && '.' in name
  {
    var name := stem + ['.'] + extension;
    assert name[|stem|] == '.';
  }

  /** A reserved stem before an extension stays reserved. */
  lemma ReservedStemStays(stem: string, extension: string)
    requires ReservedWithExtension(stem, extension)
    ensures var name := stem + ['.'] + extension;
            SanitizedSpec(name) == name + [REPLACEMENT] && Problem(SanitizedSpec(name)) == Some(Unportable)
  {
    var name := stem + ['.'] + extension;
    StemOf(stem, extension);
    DottedNameIsGood(stem, extension);
    assert Mapped(name) == name;
    SanitizedIsPortableIff(name);
  }

  lemma ConIsReserved(stem: string)
    requires stem == "con"
    ensures IsReserved(stem)
  {
    assert RESERVED_STEMS[0] == "CON" && EqIgnoreAsciiCase(stem, "CON");
  }

  lemma ConIsPlain(stem: string)
    requires stem == "con"
    ensures IsPlainStem(stem)
  {
  }

  lemma YamlIsFine(extension: string)
    requires extension == "yaml"
    ensures AllGood(extension) && !EndsBadly(extension)
  {
  }

  lemma ConYamlParts() returns (stem: string, extension: string)
    ensures stem + ['.'] + extension == "con.yaml" && ReservedWithExtension(stem, extension)
  {
    stem, extension := "con", "yaml";
    ConIsReserved(stem);
    ConIsPlain(stem);
    YamlIsFine(extension);
  }

  /** The blanket promise fails: `con.yaml` keeps its reserved stem. */
  lemma ConYamlStaysReserved()
    ensures Problem(SanitizedSpec("con.yaml")) == Some(Unportable)
  {
    var stem, extension := ConYamlParts();
    ReservedStemStays(stem, extension);
  }
}
