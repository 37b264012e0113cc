/** ByteSize, internal/configtype/bytesize.go: a count of bytes that reads and
    renders with a unit suffix. */
module ByteSize {
  import opened Options
  import opened Int64
  import opened Decimal
  import opened Text

  const BYTE_UNITS: map<string, int> := map[
    "b" := 1,
    "kib" := 0x400,
    "mib" := 0x10_0000,
    "gib" := 0x4000_0000,
    "tib" := 0x100_0000_0000,
    "kb" := 1_000,
    "mb" := 1_000_000,
    "gb" := 1_000_000_000,
    "tb" := 1_000_000_000_000]

  datatype Unit = Unit(suffix: string, size: int)

  /** Largest first. */
  const RENDER_UNITS: seq<Unit> := [
    Unit("TiB", 0x100_0000_0000),
    Unit("GiB", 0x4000_0000),
    Unit("MiB", 0x10_0000),
    Unit("KiB", 0x400)]

  /** The first unit of a table that v is a non-zero multiple of, else bytes. */
  function RenderUnit(v: int, units: seq<Unit>): (u: Unit)
    requires forall i :: 0 <= i < |units| ==> units[i].size > 0
    ensures u.size > 0
  {
    if units == [] then Unit("B", 1)
    else if v != 0 && Rem(v, units[0].size) == 0 then units[0]
    else RenderUnit(v, units[1..])
  }

  function String(v: int): string {
    var unit := RenderUnit(v, RENDER_UNITS);
    FormatInt(Quo(v, unit.size)) + unit.suffix
  }

  predicate IsLetter(c: char) {
    'a' <= c <= 'z' || 'A' <= c <= 'Z'
  }

  predicate IsTail(c: char) {
    IsLetter(c) || c == ' '
  }

  predicate AllTail(s: string) {
    forall i :: 0 <= i < |s| ==> IsTail(s[i])
  }

  /** strings.TrimRight over the letters and the space. */
  function TrimTail(s: string): string {
    if s != "" && IsTail(s[|s| - 1]) then TrimTail(s[..|s| - 1]) else s
  }

  function Lower(c: char): char {
    if 'A' <= c <= 'Z' then c - 'A' + 'a' else c
  }

  function ToLower(s: string): string {
    seq(|s|, i requires 0 <= i < |s| => Lower(s[i]))
  }

  lemma TrimTailIsPrefix(s: string)
    ensures TrimTail(s) <= s
  {}

  datatype Reading =
    | Unchanged                    // blank text
    | Size(bytes: int)
    | BadNumber
    | UnknownUnit(suffix: string)
    | Overflow

  /** What UnmarshalText does with a text. */
  function Parse(text: string): Reading {
    var trimmed := TrimSpace(text);
    if trimmed == "" then Unchanged
    else
      var digits := TrimTail(trimmed);
      TrimTailIsPrefix(trimmed);
      match ParseInt(digits)
      case None => BadNumber
      case Some(count) =>
        var suffix := ToLower(TrimSpace(trimmed[|digits|..]));
        if suffix == "" then Size(count)
        else if suffix !in BYTE_UNITS then UnknownUnit(suffix)
        else Scale(count, BYTE_UNITS[suffix])
  }

  function Scale(count: int, unit: int): Reading
    requires unit > 0
  {
    var scaled := Wrap(count * unit);
    if Quo(scaled, unit) != count then Overflow else Size(scaled)
  }

  // ---- scaling ----

  /** A size is refused for overflow exactly when count times unit lies outside
      int64; otherwise it is that product. */
  lemma ScaleIsExact(count: int, unit: int)
    requires Fits(count) && 0 < unit <= MAX
    ensures Scale(count, unit) == if Fits(count * unit) then Size(count * unit) else Overflow
  {
    DivideBackIsExact(count, unit);
    WrapIsCongruent(count * unit);
  }

  // ---- what texts mean ----

  /** What a text that begins with a numeral is made of: surrounding space, a
      numeral of any length, spaces, and a word of letters and inner spaces (or
      nothing, and then no spaces before it either). */
  datatype Spelling = Spelling(pre: string, numeral: string, gap: string, suffix: string, post: string)

  function TextOf(w: Spelling): string {
    w.pre + (w.numeral + (w.gap + w.suffix)) + w.post
  }

  predicate Shaped(w: Spelling) {
    && AllSpace(w.pre) && AllSpace(w.post)
    && IsNumeral(w.numeral)
    && (forall i :: 0 <= i < |w.gap| ==> w.gap[i] == ' ')
    && AllTail(w.suffix) && Trimmed(w.suffix)
    && (w.suffix == "" ==> w.gap == "")
  }

  /** The word, in any letter case, is a unit's. */
  predicate WellSpelled(w: Spelling) {
    Shaped(w) && (w.suffix == "" || ToLower(w.suffix) in BYTE_UNITS)
  }

  /** The mathematical number of bytes a spelling denotes. */
  function Denotes(w: Spelling): int
    requires WellSpelled(w)
  {
    NumeralValue(w.numeral) * (if w.suffix == "" then 1 else BYTE_UNITS[ToLower(w.suffix)])
  }

  /** What a suffix is made of, letter by letter. */
  const LOWER_LETTERS := "abcdefghijklmnopqrstuvwxyz"
  const UPPER_LETTERS := "ABCDEFGHIJKLMNOPQRSTUVWXYZ"

  lemma LettersInOrder(i: nat)
    requires i < 26
    ensures LOWER_LETTERS[i] as int == 'a' as int + i
    ensures UPPER_LETTERS[i] as int == 'A' as int + i
  {}

  lemma TailsAreLetters(c: char)
    ensures IsTail(c) <==> c == ' ' || exists i :: 0 <= i < 26 && (c == LOWER_LETTERS[i] || c == UPPER_LETTERS[i])
  {
    forall i: nat | i < 26 {
      LettersInOrder(i);
    }
    if 'a' <= c <= 'z' {
      assert LOWER_LETTERS[c as int - 'a' as int] == c;
    } else if 'A' <= c <= 'Z' {
      assert UPPER_LETTERS[c as int - 'A' as int] == c;
    }
  }

  /** Folding case pairs the two alphabets and leaves all else. */
  lemma LowerPairsLetters(c: char)
    ensures forall i :: 0 <= i < 26 && c == UPPER_LETTERS[i] ==> Lower(c) == LOWER_LETTERS[i]
    ensures (forall i :: 0 <= i < 26 ==> c != UPPER_LETTERS[i]) ==> Lower(c) == c
  {
    forall i: nat | i < 26 {
      LettersInOrder(i);
    }
    if 'A' <= c <= 'Z' {
      assert UPPER_LETTERS[c as int - 'A' as int] == c;
    }
  }

  function Power(base: nat, k: nat): nat {
    if k == 0 then 1 else base * Power(base, k - 1)
  }

  const SCALES := "kmgt"

  /** The units are the byte, and for each of k, m, g and t the powers of 1024
      (with an i) and of 1000 (without). */
  lemma UnitsArePowers(s: string)
    ensures s in BYTE_UNITS <==>
            s == "b" || exists k :: 0 <= k < 4 && (s == [SCALES[k]] + "ib" || s == [SCALES[k]] + "b")
    ensures BYTE_UNITS["b"] == 1
    ensures forall k :: 0 <= k < 4 ==>
      && [SCALES[k]] + "ib" in BYTE_UNITS && BYTE_UNITS[[SCALES[k]] + "ib"] == Power(1024, k + 1)
      && [SCALES[k]] + "b" in BYTE_UNITS && BYTE_UNITS[[SCALES[k]] + "b"] == Power(1000, k + 1)
  {
    forall k | 0 <= k < 4
      ensures Power(1024, k + 1) == [0x400, 0x10_0000, 0x4000_0000, 0x100_0000_0000][k]
      ensures Power(1000, k + 1) == [1_000, 1_000_000, 1_000_000_000, 1_000_000_000_000][k]
    {
      assert Power(1024, 1) == 1024 && Power(1000, 1) == 1000;
      assert Power(1024, 2) == 1024 * 1024 && Power(1000, 2) == 1000 * 1000;
      assert Power(1024, 3) == 1024 * Power(1024, 2) && Power(1000, 3) == 1000 * Power(1000, 2);
      assert Power(1024, 4) == 1024 * Power(1024, 3) && Power(1000, 4) == 1000 * Power(1000, 3);
    }
    assert [SCALES[0]] + "ib" == "kib" && [SCALES[1]] + "ib" == "mib" && [SCALES[2]] + "ib" == "gib";
    assert [SCALES[3]] + "ib" == "tib";
    assert [SCALES[0]] + "b" == "kb" && [SCALES[1]] + "b" == "mb" && [SCALES[2]] + "b" == "gb";
    assert [SCALES[3]] + "b" == "tb";
  }

  lemma UnitsAreLetters(suffix: string)
    requires ToLower(suffix) in BYTE_UNITS
    ensures suffix != "" && forall i :: 0 <= i < |suffix| ==> IsLetter(suffix[i])
    ensures 0 < BYTE_UNITS[ToLower(suffix)] <= MAX
  {
    var l := ToLower(suffix);
    assert l == "b" || l == "kib" || l == "mib" || l == "gib" || l == "tib"
        || l == "kb" || l == "mb" || l == "gb" || l == "tb";
    assert forall i :: 0 <= i < |l| ==> 'a' <= l[i] <= 'z';
    forall i | 0 <= i < |suffix|
      ensures IsLetter(suffix[i])
    {
      assert l[i] == Lower(suffix[i]);
    }
  }

  lemma {:induction false} TrimTailDrops(s: string, tail: string)
    requires AllTail(tail) && s != "" && !IsTail(s[|s| - 1])
    ensures TrimTail(s + tail) == s
  {
    if tail == "" {
      assert s + tail == s;
    } else {
      assert (s + tail)[..|s + tail| - 1] == s + tail[..|tail| - 1];
      TrimTailDrops(s, tail[..|tail| - 1]);
    }
  }

  lemma {:induction false} TrimTailSplits(s: string)
    ensures TrimTail(s) <= s && AllTail(s[|TrimTail(s)|..])
  {
    if s != "" && IsTail(s[|s| - 1]) {
      TrimTailSplits(s[..|s| - 1]);
      var d := TrimTail(s);
      assert s[|d|..] == s[..|s| - 1][|d|..] + [s[|s| - 1]];
    }
  }

  /** The core of a spelling survives both trimmings in one piece. */
  lemma CoreIsTrimmed(w: Spelling)
    requires Shaped(w)
    ensures TrimSpace(TextOf(w)) == w.numeral + (w.gap + w.suffix)
    ensures TrimTail(w.numeral + (w.gap + w.suffix)) == w.numeral
    ensures TrimSpace(w.gap + w.suffix) == w.suffix
  {
    NumeralEnds(w.numeral);
    var tail := w.gap + w.suffix;
    var core := w.numeral + tail;
    assert core[0] == w.numeral[0];
    assert core[|core| - 1] == if w.suffix == "" then w.numeral[|w.numeral| - 1] else w.suffix[|w.suffix| - 1];
    TrimSpaceDrops(w.pre, core, w.post);
    TrimTailDrops(w.numeral, tail);
    TrimSpaceDrops(w.gap, w.suffix, "");
    assert w.gap + w.suffix + "" == tail;
  }

  lemma ScalingNeverShrinks(n: int, unit: int)
    requires unit > 0 && !Fits(n)
    ensures !Fits(n * unit)
  {
    if n > 0 {
      assert n * (unit - 1) >= 0;
    } else {
      assert n * (unit - 1) <= 0;
    }
    assert n * unit == n * (unit - 1) + n;
  }

  /** What becomes of every text of that shape: refused as a number when its
      numeral alone is out of range, then for its unit when the word is none. */
  lemma ShapesRead(w: Spelling)
    requires Shaped(w) && !WellSpelled(w)
    ensures Parse(TextOf(w)) ==
            if Fits(NumeralValue(w.numeral)) then UnknownUnit(ToLower(w.suffix)) else BadNumber
  {
    CoreIsTrimmed(w);
    NumeralEnds(w.numeral);
    var core := w.numeral + (w.gap + w.suffix);
    assert core[|w.numeral|..] == w.gap + w.suffix;
  }

  /** Every spelling reads as the number of bytes it denotes when that is an
      int64, and otherwise is refused: as a number when its numeral alone is out
      of range, and for overflow when only the product is. */
  lemma SpellingsRead(w: Spelling)
    requires WellSpelled(w)
    ensures Parse(TextOf(w)) ==
            if Fits(Denotes(w)) then Size(Denotes(w))
            else if Fits(NumeralValue(w.numeral)) then Overflow
            else BadNumber
  {
    CoreIsTrimmed(w);
    NumeralEnds(w.numeral);
    var core := w.numeral + (w.gap + w.suffix);
    assert core[|w.numeral|..] == w.gap + w.suffix;
    var n := NumeralValue(w.numeral);
    if w.suffix != "" {
      UnitsAreLetters(w.suffix);
      var unit := BYTE_UNITS[ToLower(w.suffix)];
      if Fits(n) {
        ScaleIsExact(n, unit);
      } else {
        ScalingNeverShrinks(n, unit);
      }
    }
  }

  /** What follows the digits is spaces and then a suffix without any around it. */
  lemma TailSplits(trimmed: string) returns (gap: string)
    requires Trimmed(trimmed)
    ensures TrimTail(trimmed) <= trimmed
    ensures var tail := trimmed[|TrimTail(trimmed)|..];
      && tail == gap + TrimSpace(tail)
      && (TrimSpace(tail) == "" ==> gap == "")
      && Trimmed(TrimSpace(tail)) && AllTail(TrimSpace(tail))
      && forall i :: 0 <= i < |gap| ==> gap[i] == ' '
  {
    TrimTailSplits(trimmed);
    var tail := trimmed[|TrimTail(trimmed)|..];
    var rest;
    gap, rest := TrimSpaceSplits(tail);
    assert tail != "" ==> tail[|tail| - 1] == trimmed[|trimmed| - 1];
    SpacesAtEnd(gap + TrimSpace(tail), rest);
    assert tail == gap + TrimSpace(tail);
    assert gap + "" == gap;
    assert forall i :: 0 <= i < |TrimSpace(tail)| ==> TrimSpace(tail)[i] == tail[|gap| + i];
    forall i | 0 <= i < |gap|
      ensures gap[i] == ' '
    {
      assert gap[i] == tail[i] && IsTail(tail[i]);
    }
  }

  lemma SpacesAtEnd(s: string, rest: string)
    requires AllSpace(rest) && (s + rest != "" ==> !IsSpace((s + rest)[|s + rest| - 1]))
    ensures rest == ""
  {}

  /** And nothing else is read as far as its unit. */
  lemma OnlyShapesRead(text: string) returns (w: Spelling)
    requires !Parse(text).Unchanged? && !Parse(text).BadNumber?
    ensures Shaped(w) && TextOf(w) == text && Fits(NumeralValue(w.numeral))
    ensures Parse(text).Size? || Parse(text).Overflow? ==> WellSpelled(w)
  {
    var pre, post := TrimSpaceSplits(text);
    var digits, gap, suffix := CoreSplits(TrimSpace(text));
    w := Spelling(pre, digits, gap, suffix, post);
    assert suffix != "" ==> |ToLower(suffix)| > 0;
  }

  lemma CoreSplits(core: string) returns (digits: string, gap: string, suffix: string)
    requires Trimmed(core)
    ensures core == digits + (gap + suffix) && digits == TrimTail(core)
    ensures suffix == TrimSpace(core[|digits|..]) && (suffix == "" ==> gap == "")
    ensures AllTail(suffix) && Trimmed(suffix)
    ensures forall i :: 0 <= i < |gap| ==> gap[i] == ' '
  {
    gap := TailSplits(core);
    digits := TrimTail(core);
    var tail := core[|digits|..];
    suffix := TrimSpace(tail);
    assert core == digits + tail;
  }

  /** A text is accepted as v exactly when it spells v and v is an int64. The
      grammar is its own: it mentions neither parsing nor wrapping. */
  lemma AcceptedExactlyWhen(text: string, v: int)
    ensures Parse(text) == Size(v) <==>
            Fits(v) && exists w :: WellSpelled(w) && TextOf(w) == text && Denotes(w) == v
  {
    if Parse(text) == Size(v) {
      var w := OnlyShapesRead(text);
      SpellingsRead(w);
    }
    if w :| WellSpelled(w) && TextOf(w) == text && Denotes(w) == v {
      SpellingsRead(w);
    }
  }

  // ---- what every text is read as ----

  /** The text spells v. */
  ghost predicate Spells(text: string, v: int) {
    exists w :: WellSpelled(w) && TextOf(w) == text && Denotes(w) == v
  }

  /** The text is a numeral within int64 and a word that is no unit. */
  ghost predicate NamesNoUnit(text: string, word: string) {
    exists w :: Shaped(w) && !WellSpelled(w) && TextOf(w) == text
             && Fits(NumeralValue(w.numeral)) && ToLower(w.suffix) == word
  }

  /** The text spells a number that is no int64, by a numeral that is one. */
  ghost predicate SpellsTooMuch(text: string) {
    exists w :: WellSpelled(w) && TextOf(w) == text && Fits(NumeralValue(w.numeral)) && !Fits(Denotes(w))
  }

  lemma BlankExactlyWhen(text: string)
    ensures Parse(text).Unchanged? <==> AllSpace(text)
  {
    TrimmedAway(text);
  }

  /** A text is left alone exactly when it is blank, a size exactly when it spells
      an int64, an overflow exactly when it spells too much, an unknown unit
      exactly when its word is none, and otherwise no number. */
  lemma ReadsExactly(text: string)
    ensures Parse(text).Unchanged? <==> AllSpace(text)
    ensures forall v :: Parse(text) == Size(v) <==> Spells(text, v) && Fits(v)
    ensures Parse(text).Overflow? <==> SpellsTooMuch(text)
    ensures forall word :: Parse(text) == UnknownUnit(word) <==> NamesNoUnit(text, word)
  {
    BlankExactlyWhen(text);
    forall v
      ensures Parse(text) == Size(v) <==> Spells(text, v) && Fits(v)
    {
      AcceptedExactlyWhen(text, v);
    }
    if w :| WellSpelled(w) && TextOf(w) == text && Fits(NumeralValue(w.numeral)) && !Fits(Denotes(w)) {
      SpellingsRead(w);
    }
    forall w | Shaped(w) && !WellSpelled(w) && TextOf(w) == text
      ensures Parse(text) == if Fits(NumeralValue(w.numeral)) then UnknownUnit(ToLower(w.suffix)) else BadNumber
    {
      ShapesRead(w);
    }
    if Parse(text).Overflow? || Parse(text).UnknownUnit? {
      var w := OnlyShapesRead(text);
      if WellSpelled(w) {
        SpellingsRead(w);
      }
    }
  }

  /** What UnmarshalText's outcome says about its text. */
  ghost predicate Answers(text: string, before: int, err: Option<Reading>, after: int) {
    && (err.None? <==> AllSpace(text) || exists v :: Spells(text, v) && Fits(v))
    && (forall v :: Spells(text, v) && Fits(v) ==> after == v)
    && ((forall v :: Spells(text, v) ==> !Fits(v)) ==> after == before)
    && (forall word :: err == Some(UnknownUnit(word)) <==> NamesNoUnit(text, word))
    && (err == Some(Overflow) <==> SpellsTooMuch(text))
    && (err.Some? ==> err.value.UnknownUnit? || err.value.Overflow? || err.value.BadNumber?)
  }

  lemma ParseAnswers(text: string, before: int, err: Option<Reading>, after: int)
    requires err == if Parse(text).Unchanged? || Parse(text).Size? then None else Some(Parse(text))
    requires after == if Parse(text).Size? then Parse(text).bytes else before
    ensures Answers(text, before, err, after)
  {
    ReadsExactly(text);
    if Parse(text).Size? {
      assert Spells(text, after) && Fits(after);
    }
  }

  /** The configuration field UnmarshalText writes through its receiver. */
  class Field {
    var value: int

    constructor (value: int)
      ensures this.value == value
    {
      this.value := value;
    }

    /** No error exactly for blank text and for the spelling of an int64, which is
        then the field's value; any other text leaves the field as it was. */
    method UnmarshalText(text: string) returns (err: Option<Reading>)
      modifies this
      ensures Answers(text, old(value), err, value)
    {
      err := None;
      var trimmed := TrimSpace(text);
      if trimmed != "" {
        var digits := TrimTail(trimmed);
        TrimTailIsPrefix(trimmed);
        var count := ParseInt(digits);
        var suffix := ToLower(TrimSpace(trimmed[|digits|..]));
        if count.None? {
          err := Some(BadNumber);
        } else if suffix == "" {
          value := count.value;
        } else if suffix !in BYTE_UNITS {
          err := Some(UnknownUnit(suffix));
        } else {
          var multiplier := BYTE_UNITS[suffix];
          var scaled := Wrap(count.value * multiplier);
          if Quo(scaled, multiplier) != count.value {
            err := Some(Overflow);
          } else {
            value := scaled;
          }
        }
      }
      ParseAnswers(text, old(value), err, value);
    }
  }

  // ---- rendering ----

  lemma {:induction false} RenderUnitIsFirst(v: int, units: seq<Unit>) returns (k: nat)
    requires forall i :: 0 <= i < |units| ==> units[i].size > 0
    ensures k <= |units| && RenderUnit(v, units) == if k < |units| then units[k] else Unit("B", 1)
    ensures k < |units| ==> v != 0 && v % units[k].size == 0
    ensures forall i :: 0 <= i < k && v != 0 ==> v % units[i].size != 0
  {
    if units == [] {
      k := 0;
    } else {
      ExactQuotient(v, units[0].size);
      if v != 0 && v % units[0].size == 0 {
        k := 0;
      } else {
        var j := RenderUnitIsFirst(v, units[1..]);
        k := j + 1;
        assert forall i :: 1 <= i < k ==> units[i] == units[1..][i - 1];
      }
    }
  }

  /** The unit String picks divides the value exactly, and no larger one does. */
  lemma RenderUnitFits(v: int)
    ensures var u := RenderUnit(v, RENDER_UNITS);
      && v % u.size == 0 && Quo(v, u.size) * u.size == v
      && (v != 0 ==> forall i :: 0 <= i < |RENDER_UNITS| && v % RENDER_UNITS[i].size == 0 ==>
           RENDER_UNITS[i].size <= u.size)
  {
    var u := RenderUnit(v, RENDER_UNITS);
    var k := RenderUnitIsFirst(v, RENDER_UNITS);
    assert v % 1 == 0;
    ExactQuotient(v, u.size);
  }

  lemma RenderUnitReads(v: int)
    ensures var u := RenderUnit(v, RENDER_UNITS);
      u.suffix != "" && ToLower(u.suffix) in BYTE_UNITS && BYTE_UNITS[ToLower(u.suffix)] == u.size
  {
    var k := RenderUnitIsFirst(v, RENDER_UNITS);
    assert ToLower("TiB") == "tib" && ToLower("GiB") == "gib" && ToLower("MiB") == "mib"
        && ToLower("KiB") == "kib" && ToLower("B") == "b";
  }

  lemma QuotientFits(v: int, u: int)
    requires Fits(v) && u > 0
    ensures Fits(Quo(v, u))
  {
    QuoRem(v, u);
  }

  lemma CountAndUnitSpell(count: int, suffix: string) returns (w: Spelling)
    requires Fits(count) && ToLower(suffix) in BYTE_UNITS
    ensures WellSpelled(w) && TextOf(w) == FormatInt(count) + suffix
    ensures Denotes(w) == count * BYTE_UNITS[ToLower(suffix)]
  {
    UnitsAreLetters(suffix);
    FormatIntIsNumeral(count);
    w := Spelling("", FormatInt(count), "", suffix, "");
    assert "" + suffix == suffix;
  }

  /** What String writes is a spelling of the value. */
  lemma StringSpells(v: int) returns (w: Spelling)
    requires Fits(v)
    ensures WellSpelled(w) && TextOf(w) == String(v) && Denotes(w) == v
  {
    var u := RenderUnit(v, RENDER_UNITS);
    RenderUnitFits(v);
    RenderUnitReads(v);
    QuotientFits(v, u.size);
    w := CountAndUnitSpell(Quo(v, u.size), u.suffix);
  }

  /** Reading what was rendered gives the value back, for every int64. */
  lemma RoundTrip(v: int)
    requires Fits(v)
    ensures Parse(String(v)) == Size(v)
  {
    var w := StringSpells(v);
    SpellingsRead(w);
  }

  const RENDERED := ["B", "KiB", "MiB", "GiB", "TiB"]

  /** String writes the value as a plain count of 1024^k bytes, for the largest k
      up to four of which it is a whole number; zero as bytes. */
  lemma StringIsLargest(v: int) returns (k: nat, count: int)
    ensures k <= 4 && String(v) == FormatInt(count) + RENDERED[k] && count * Power(1024, k) == v
    ensures v == 0 ==> k == 0
    ensures v != 0 ==> forall j :: k < j <= 4 ==> v % Power(1024, j) != 0
  {
    assert Power(1024, 1) == 0x400 && Power(1024, 2) == 1024 * 1024;
    assert Power(1024, 3) == 1024 * Power(1024, 2);
    assert Power(1024, 4) == 1024 * Power(1024, 3);
    var u := RenderUnit(v, RENDER_UNITS);
    var i := RenderUnitIsFirst(v, RENDER_UNITS);
    RenderUnitFits(v);
    k, count := 4 - i, Quo(v, u.size);
    forall j | k < j <= 4 && v != 0
      ensures v % Power(1024, j) != 0
    {
      assert v % RENDER_UNITS[4 - j].size != 0;
    }
  }
}
