/** Reading the replication lag out of the free text that `rbd mirror image status` prints. */
module MirrorText {
  import opened Text
  import opened Wrappers

  const KEY := "entries_behind_master="
  const NAME := "entries_behind_master"
  const BYTES_PER_ENTRY := 4096

  /** The first occurrence at or after `i`. */
  function FindFrom(needle: string, hay: string, i: nat): Option<nat>
    decreases |hay| - i
  {
    if i > |hay| then None
    else if OccursAt(needle, hay, i) then Some(i)
    else if i == |hay| then None
    else FindFrom(needle, hay, i + 1)
  }

  /** `text.split(key)[1]`: what follows the first occurrence, up to the next one; nothing if there is none. */
  function SecondPart(text: string, key: string): Option<string> {
    var first := FindFrom(key, text, 0);
    if first.None? || first.value + |key| > |text| then None
    else Some(UpToNext(text, key, first.value + |key|))
  }

  function UpToNext(text: string, key: string, start: nat): string
    requires start <= |text|
  {
    var next := FindFrom(key, text, start);
    if next.Some? && start <= next.value <= |text| then text[start..next.value] else text[start..]
  }

  function UntilComma(s: string): string {
    if s == [] || s[0] == ',' then [] else [s[0]] + UntilComma(s[1..])
  }

  predicate Blank(c: char) {
    c == ' ' || c == '\t' || c == '\n' || c == '\r'
  }

  function StripLeft(s: string): string {
    if s != [] && Blank(s[0]) then StripLeft(s[1..]) else s
  }

  function StripRight(s: string): string {
    if s != [] && Blank(s[|s| - 1]) then StripRight(s[..|s| - 1]) else s
  }

  predicate Digit(c: char) {
    '0' <= c <= '9'
  }

  function DigitValue(c: char): nat
    requires Digit(c)
  {
    c as int - '0' as int
  }

  /** Digits with single underscores between them, read onto `acc`. */
  function ReadDigits(s: string, acc: nat, afterDigit: bool): Option<nat>
    decreases |s|
  {
    if s == [] then if afterDigit then Some(acc) else None
    else if Digit(s[0]) then ReadDigits(s[1..], 10 * acc + DigitValue(s[0]), true)
    else if s[0] == '_' && afterDigit then ReadDigits(s[1..], acc, false)
    else None
  }

  /** Python's `int` on a string: blanks around it, an optional sign, underscores between digits. */
  function PythonInt(s: string): Option<int> {
    var t := StripRight(StripLeft(s));
    var signed := t != [] && (t[0] == '-' || t[0] == '+');
    var n := ReadDigits(if signed then t[1..] else t, 0, false);
    if n.None? then None
    else if signed && t[0] == '-' then Some(0 - n.value)
    else Some(n.value)
  }

  /** Anything that cannot be read counts as no lag. */
  function LagBytes(description: string): int {
    if !Contains(description, NAME) then 0
    else
      match SecondPart(description, KEY)
      case None => 0
      case Some(part) =>
        match PythonInt(UntilComma(part))
        case None => 0
        case Some(n) => n * BYTES_PER_ENTRY
  }

  predicate Synced(state: string, description: string) {
    state == "up+replaying" && LagBytes(description) == 0
  }

  // ---------- reading undoes printing ----------

  function DigitChar(d: nat): char
    requires d < 10
  {
    ('0' as int + d) as char
  }

  function Decimal(n: nat): string {
    if n < 10 then [DigitChar(n)] else Decimal(n / 10) + [DigitChar(n % 10)]
  }

  lemma {:induction false} DecimalDigits(n: nat)
    ensures Decimal(n) != [] && forall i | 0 <= i < |Decimal(n)| :: Digit(Decimal(n)[i])
    decreases n
  {
    if n >= 10 {
      DecimalDigits(n / 10);
    }
  }

  lemma {:induction false} ReadDecimal(n: nat, rest: string)
    ensures ReadDigits(Decimal(n) + rest, 0, false) == ReadDigits(rest, n, true)
    decreases n
  {
    if n < 10 {
      assert (Decimal(n) + rest)[1..] == rest;
    } else {
      var d := [DigitChar(n % 10)];
      ReadDecimal(n / 10, d + rest);
      assert Decimal(n) + rest == Decimal(n / 10) + (d + rest);
      assert (d + rest)[1..] == rest;
      assert n == 10 * (n / 10) + n % 10;
    }
  }

  lemma IntOfDecimal(n: nat)
    ensures PythonInt(Decimal(n)) == Some(n)
  {
    DecimalDigits(n);
    ReadDecimal(n, "");
    assert Decimal(n) + "" == Decimal(n);
    assert Digit(Decimal(n)[0]) && Digit(Decimal(n)[|Decimal(n)| - 1]);
  }

  lemma {:induction false} FindsFirst(needle: string, hay: string, i: nat, at: nat)
    requires i <= at <= |hay| && OccursAt(needle, hay, at)
    requires forall k | i <= k < at :: !OccursAt(needle, hay, k)
    ensures FindFrom(needle, hay, i) == Some(at)
    decreases at - i
  {
    if i < at {
      FindsFirst(needle, hay, i + 1, at);
    }
  }

  lemma {:induction false} FindSound(needle: string, hay: string, i: nat)
    ensures FindFrom(needle, hay, i).Some? ==>
      i <= FindFrom(needle, hay, i).value <= |hay| && OccursAt(needle, hay, FindFrom(needle, hay, i).value)
    decreases |hay| - i
  {
    if i < |hay| && !OccursAt(needle, hay, i) {
      FindSound(needle, hay, i + 1);
    }
  }

  /** The key ends in its only '=', so it cannot start inside the prefix and end inside the key that follows. */
  lemma KeyFirstAt(prefix: string, rest: string, k: nat)
    requires !Contains(prefix, KEY) && k < |prefix|
    ensures !OccursAt(KEY, prefix + KEY + rest, k)
  {
    var text := prefix + KEY + rest;
    if OccursAt(KEY, text, k) {
      if k + |KEY| <= |prefix| {
        assert prefix[k..k + |KEY|] == text[k..k + |KEY|];
        assert OccursAt(KEY, prefix, k);
      } else {
        var e := k + |KEY| - 1 - |prefix|;
        assert text[k..k + |KEY|][|KEY| - 1] == '=';
        assert text[|prefix| + e] == KEY[e];
        KeyEquals(e);
      }
    }
  }

  lemma KeyEquals(e: nat)
    requires e < |KEY| - 1
    ensures KEY[e] != '='
  {
  }

  // ---------- what is read, for every description ----------

  /** The text the number is read from: what follows the key, up to the next key or comma. */
  function Field(rest: string): string {
    UntilComma(UpToNext(rest, KEY, 0))
  }

  function Bytes(n: Option<int>): int {
    if n.None? then 0 else n.value * BYTES_PER_ENTRY
  }

  lemma NameOccurs(prefix: string, rest: string)
    ensures Contains(prefix + KEY + rest, NAME)
  {
    var text := prefix + KEY + rest;
    assert KEY[..|NAME|] == NAME;
    assert text[|prefix|..|prefix| + |NAME|] == KEY[..|NAME|];
    assert OccursAt(NAME, text, |prefix|);
  }

  lemma {:induction false} FindShift(needle: string, a: string, b: string, i: nat)
    requires i <= |b|
    ensures FindFrom(needle, a + b, |a| + i) ==
            var r := FindFrom(needle, b, i);
            if r.None? then None else Some(|a| + r.value)
    decreases |b| - i
  {
    assert (a + b)[|a| + i..] == b[i..];
    assert OccursAt(needle, a + b, |a| + i) <==> OccursAt(needle, b, i) by {
      if i + |needle| <= |b| {
        assert (a + b)[|a| + i..|a| + i + |needle|] == b[i..i + |needle|];
      }
    }
    if i < |b| && !OccursAt(needle, b, i) {
      FindShift(needle, a, b, i + 1);
    }
  }

  lemma UpToNextShift(a: string, b: string)
    ensures UpToNext(a + b, KEY, |a|) == UpToNext(b, KEY, 0)
  {
    FindShift(KEY, a, b, 0);
    FindSound(KEY, b, 0);
    var r := FindFrom(KEY, b, 0);
    if r.Some? {
      assert (a + b)[|a|..|a| + r.value] == b[0..r.value];
    } else {
      assert (a + b)[|a|..] == b[0..];
    }
  }

  /** The number is read right behind the first key. */
  lemma ReadsField(prefix: string, rest: string)
    requires !Contains(prefix, KEY)
    ensures LagBytes(prefix + KEY + rest) == Bytes(PythonInt(Field(rest)))
  {
    var text := prefix + KEY + rest;
    NameOccurs(prefix, rest);
    forall k | 0 <= k < |prefix|
      ensures !OccursAt(KEY, text, k)
    {
      KeyFirstAt(prefix, rest, k);
    }
    assert text[|prefix|..|prefix| + |KEY|] == KEY;
    FindsFirst(KEY, text, 0, |prefix|);
    UpToNextShift(prefix + KEY, rest);
  }

  /** Without the key nothing is read. */
  lemma NoKeyReadsZero(description: string)
    requires !Contains(description, KEY)
    ensures LagBytes(description) == 0
  {
    FindSound(KEY, description, 0);
  }

  lemma SplitAtKey(description: string) returns (prefix: string, rest: string)
    requires Contains(description, KEY)
    ensures description == prefix + KEY + rest && !Contains(prefix, KEY)
  {
    var i := 0;
    while !OccursAt(KEY, description, i)
      invariant i <= |description| && forall k | 0 <= k < i :: !OccursAt(KEY, description, k)
      decreases |description| - i
    {
      i := i + 1;
    }
    prefix, rest := description[..i], description[i + |KEY|..];
    if Contains(prefix, KEY) {
      var k :| 0 <= k <= |prefix| && OccursAt(KEY, prefix, k);
      assert prefix[k..k + |KEY|] == description[k..k + |KEY|];
      assert OccursAt(KEY, description, k);
    }
  }

  /**
   Every description: without the key a replaying image counts as synced; with it the number behind the first key
   decides. The image counts as synced exactly if that number is unreadable or zero, and a negative number is read as
   a negative lag.
   */
  lemma EveryDescription(state: string, description: string) returns (prefix: string, rest: string)
    ensures !Contains(description, KEY) ==>
      LagBytes(description) == 0 && (Synced(state, description) <==> state == "up+replaying")
    ensures Contains(description, KEY) ==>
      var n := PythonInt(Field(rest));
      description == prefix + KEY + rest && !Contains(prefix, KEY) &&
      (Synced(state, description) <==> state == "up+replaying" && (n.None? || n.value == 0)) &&
      (LagBytes(description) == 0 <==> n.None? || n.value == 0) &&
        (LagBytes(description) < 0 <==> n.Some? && n.value < 0)
  {
    prefix, rest := "", "";
    if Contains(description, KEY) {
      prefix, rest := SplitAtKey(description);
      ReadsField(prefix, rest);
    } else {
      NoKeyReadsZero(description);
    }
  }

  // ---------- what is read, against the count that was printed ----------

  /**
   A number of which some digits have been read goes on to the end of `s`: digits, and single underscores before
   digits.
   */
  predicate NumberGoesOn(s: string) {
    forall i | 0 <= i < |s| :: Digit(s[i]) || (s[i] == '_' && i + 1 < |s| && Digit(s[i + 1]))
  }

  predicate OnlyZeros(s: string) {
    forall i | 0 <= i < |s| :: s[i] == '0' || s[i] == '_'
  }

  lemma {:induction false} ReadDigitsIff(s: string, acc: nat, afterDigit: bool)
    ensures ReadDigits(s, acc, afterDigit).Some? <==> NumberGoesOn(s) && (afterDigit || (s != "" && Digit(s[0])))
    ensures ReadDigits(s, acc, afterDigit).Some? ==>
      var v := ReadDigits(s, acc, afterDigit).value;
      v >= acc && (s != "" ==> v >= 10 * acc) && (acc == 0 ==> (v == 0 <==> OnlyZeros(s)))
    decreases |s|
  {
    if s != "" {
      var t := s[1..];
      assert forall i | 0 <= i < |t| :: t[i] == s[i + 1];
      assert forall i | 1 <= i < |s| :: s[i] == t[i - 1];
      if Digit(s[0]) {
        ReadDigitsIff(t, 10 * acc + DigitValue(s[0]), true);
        ValuesGrow(t, 10 * acc + DigitValue(s[0]));
      } else if s[0] == '_' && afterDigit {
        ReadDigitsIff(t, acc, false);
      }
    }
  }

  lemma {:induction false} ValuesGrow(s: string, acc: nat)
    ensures ReadDigits(s, acc, true).Some? ==> ReadDigits(s, acc, true).value >= acc
    decreases |s|
  {
    if s != "" {
      if Digit(s[0]) {
        ValuesGrow(s[1..], 10 * acc + DigitValue(s[0]));
      } else if s[0] == '_' && s[1..] != "" && Digit(s[1..][0]) {
        ValuesGrow(s[1..][1..], 10 * acc + DigitValue(s[1..][0]));
      }
    }
  }

  lemma {:induction false} StripRightAfter(digits: string, s: string)
    requires digits != "" && !Blank(digits[|digits| - 1])
    ensures StripRight(digits + s) == digits + StripRight(s)
    decreases |s|
  {
    if s == "" {
      assert digits + s == digits;
    } else {
      assert (digits + s)[..|digits + s| - 1] == digits + s[..|s| - 1];
      StripRightAfter(digits, s[..|s| - 1]);
    }
  }

  lemma IntAfterDecimal(n: nat, s: string)
    ensures PythonInt(Decimal(n) + s) == ReadDigits(StripRight(s), n, true)
  {
    DecimalDigits(n);
    StripRightAfter(Decimal(n), s);
    ReadDecimal(n, StripRight(s));
    assert (Decimal(n) + s)[0] == Decimal(n)[0] && (Decimal(n) + StripRight(s))[0] == Decimal(n)[0];
  }

  lemma {:induction false} UntilCommaAfter(digits: string, s: string)
    requires forall i | 0 <= i < |digits| :: digits[i] != ','
    ensures UntilComma(digits + s) == digits + UntilComma(s)
    decreases |digits|
  {
    if digits == "" {
      assert digits + s == s;
    } else {
      assert (digits + s)[1..] == digits[1..] + s;
      UntilCommaAfter(digits[1..], s);
    }
  }

  lemma StartsElsewhere(needle: string, hay: string, i: nat)
    requires needle != "" && i < |hay| && hay[i] != needle[0]
    ensures !OccursAt(needle, hay, i)
  {
    assert i + |needle| <= |hay| ==> hay[i..i + |needle|][0] == hay[i];
  }

  lemma {:induction false} SkipDigits(digits: string, s: string, i: nat)
    requires i <= |digits| && forall k | 0 <= k < |digits| :: Digit(digits[k])
    ensures FindFrom(KEY, digits + s, i) == FindFrom(KEY, digits + s, |digits|)
    decreases |digits| - i
  {
    if i < |digits| {
      SkipDigits(digits, s, i + 1);
      StartsElsewhere(KEY, digits + s, i);
    }
  }

  lemma FieldAfterDigits(digits: string, s: string)
    requires forall k | 0 <= k < |digits| :: Digit(digits[k])
    ensures Field(digits + s) == digits + Field(s)
  {
    SkipDigits(digits, s, 0);
    FindShift(KEY, digits, s, 0);
    FindSound(KEY, s, 0);
    var r := FindFrom(KEY, s, 0);
    if r.Some? {
      assert (digits + s)[0..|digits| + r.value] == digits + s[0..r.value];
    } else {
      assert (digits + s)[0..] == digits + s[0..];
    }
    UntilCommaAfter(digits, UpToNext(s, KEY, 0));
  }

  /** What is left of the number's field behind the printed count. */
  function Trail(suffix: string): string {
    StripRight(Field(suffix))
  }

  lemma ReadsPrinted(prefix: string, n: nat, suffix: string)
    requires !Contains(prefix, KEY)
    ensures LagBytes(prefix + KEY + Decimal(n) + suffix) == Bytes(ReadDigits(Trail(suffix), n, true))
  {
    DecimalDigits(n);
    FieldAfterDigits(Decimal(n), suffix);
    IntAfterDecimal(n, Field(suffix));
    ReadsField(prefix, Decimal(n) + suffix);
    assert prefix + KEY + Decimal(n) + suffix == prefix + KEY + (Decimal(n) + suffix);
  }

  /**
   A printed count of entries, whatever stands before its key and whatever follows it: the lag read is that count,
   at 4096 bytes an entry, exactly if nothing but blanks is left in its field; or if the count is zero and what is left
   is unreadable or only more zeros.
   */
  lemma PrintedReadsBackIff(prefix: string, n: nat, suffix: string)
    requires !Contains(prefix, KEY)
    ensures LagBytes(prefix + KEY + Decimal(n) + suffix) == 4096 * n
        <==> Trail(suffix) == "" || (n == 0 && (!NumberGoesOn(Trail(suffix)) || OnlyZeros(Trail(suffix))))
  {
    ReadsPrinted(prefix, n, suffix);
    ReadDigitsIff(Trail(suffix), n, true);
  }

  /**
   A replaying image that is `n > 0` entries behind is reported synced exactly if what is left in the field makes the
   number unreadable; the reading is never short of the true lag otherwise.
   */
  lemma WronglySyncedIff(prefix: string, n: nat, suffix: string)
    requires !Contains(prefix, KEY) && n > 0
    ensures var description := prefix + KEY + Decimal(n) + suffix;
      (Synced("up+replaying", description) <==> !NumberGoesOn(Trail(suffix))) &&
      (LagBytes(description) < 4096 * n <==> !NumberGoesOn(Trail(suffix)))
  {
    ReadsPrinted(prefix, n, suffix);
    ReadDigitsIff(Trail(suffix), n, true);
  }

  lemma FieldOfNegative(digits: string)
    requires forall k | 0 <= k < |digits| :: Digit(digits[k])
    ensures Field("-" + digits) == "-" + digits
  {
    var rest := "-" + digits;
    StartsElsewhere(KEY, rest, 0);
    FindShift(KEY, "-", digits, 0);
    SkipDigits(digits, "", 0);
    assert digits + "" == digits;
    NoRoom(KEY, digits, |digits|);
    assert UpToNext(rest, KEY, 0) == rest;
    UntilCommaAfter(rest, "");
    assert rest + "" == rest;
  }

  lemma IntOfNegative(n: nat)
    ensures PythonInt("-" + Decimal(n)) == Some(0 - n)
  {
    var rest := "-" + Decimal(n);
    DecimalDigits(n);
    ReadDecimal(n, "");
    assert Decimal(n) + "" == Decimal(n);
    assert Digit(rest[|rest| - 1]) && rest[1..] == Decimal(n);
  }

  /** A count printed with a minus sign is a negative lag, which no wait with a limit of at least zero rejects. */
  lemma NegativeCountReads(prefix: string, n: nat)
    requires !Contains(prefix, KEY)
    ensures LagBytes(prefix + KEY + "-" + Decimal(n)) == 0 - 4096 * n
  {
    DecimalDigits(n);
    FieldOfNegative(Decimal(n));
    IntOfNegative(n);
    ReadsField(prefix, "-" + Decimal(n));
    assert prefix + KEY + "-" + Decimal(n) == prefix + KEY + ("-" + Decimal(n));
  }

  /** The description tells this count of entries. */
  ghost predicate Tells(description: string, n: nat) {
    exists prefix, suffix | !Contains(prefix, KEY) && Trail(suffix) == "" ::
      description == prefix + KEY + Decimal(n) + suffix
  }

  lemma TellsLag(description: string, n: nat)
    requires Tells(description, n)
    ensures LagBytes(description) == 4096 * n
  {
    var prefix, suffix :| !Contains(prefix, KEY) && Trail(suffix) == "" &&
      description == prefix + KEY + Decimal(n) + suffix;
    PrintedReadsBackIff(prefix, n, suffix);
  }

  /**
   Reading undoes printing: whatever comes before the key, and whatever follows the number after a comma, the lag
   is 4096 bytes per printed entry, and the image counts as synced exactly if it is replaying with no entries behind.
   */
  lemma LagReadsBack(prefix: string, n: nat, suffix: string, state: string)
    requires !Contains(prefix, KEY) && (suffix == "" || suffix[0] == ',')
    ensures var description := prefix + KEY + Decimal(n) + suffix;
      LagBytes(description) == 4096 * n && Tells(description, n) &&
      (Synced(state, description) <==> state == "up+replaying" && n == 0)
  {
    CommaEnds(suffix);
    PrintedReadsBackIff(prefix, n, suffix);
    assert Trail(suffix) == "";
  }

  lemma CommaEnds(suffix: string)
    requires suffix == "" || suffix[0] == ','
    ensures Field(suffix) == ""
  {
    if suffix != "" {
      StartsElsewhere(KEY, suffix, 0);
    }
    FindSound(KEY, suffix, 0);
  }

  lemma {:induction false} NoRoom(needle: string, hay: string, i: nat)
    requires i + |needle| > |hay|
    ensures FindFrom(needle, hay, i) == None
    decreases |hay| - i
  {
    if i < |hay| {
      NoRoom(needle, hay, i + 1);
    }
  }

  // ---------- which texts are numbers ----------

  predicate AllBlank(s: string) {
    forall i | 0 <= i < |s| :: Blank(s[i])
  }

  /** Digits, with single underscores between them. */
  predicate Numeral(s: string) {
    s != "" && Digit(s[0]) && NumberGoesOn(s)
  }

  function DigitsOf(s: string): string {
    if s == "" then "" else (if s[0] == '_' then "" else [s[0]]) + DigitsOf(s[1..])
  }

  lemma {:induction false} UnderscoresDrop(s: string, acc: nat, afterDigit: bool)
    requires NumberGoesOn(s) && (afterDigit || (s != "" && Digit(s[0])))
    ensures ReadDigits(s, acc, afterDigit) == ReadDigits(DigitsOf(s), acc, afterDigit)
    decreases |s|
  {
    if s != "" {
      var t := s[1..];
      assert forall i | 0 <= i < |t| :: t[i] == s[i + 1];
      assert (DigitsOf(s) == DigitsOf(t)) || DigitsOf(s)[1..] == DigitsOf(t);
      if Digit(s[0]) {
        UnderscoresDrop(t, 10 * acc + DigitValue(s[0]), true);
      } else {
        UnderscoresDrop(t, acc, false);
        assert DigitsOf(t)[0] == t[0];
      }
    }
  }

  lemma {:induction false} StripLeftBlanks(a: string, s: string)
    requires AllBlank(a) && s != "" && !Blank(s[0])
    ensures StripLeft(a + s) == s
    decreases |a|
  {
    if a == "" {
      assert a + s == s;
    } else {
      assert (a + s)[1..] == a[1..] + s;
      StripLeftBlanks(a[1..], s);
    }
  }

  lemma {:induction false} StripRightBlanks(s: string, b: string)
    requires AllBlank(b) && s != "" && !Blank(s[|s| - 1])
    ensures StripRight(s + b) == s
    decreases |b|
  {
    if b == "" {
      assert s + b == s;
    } else {
      assert (s + b)[..|s + b| - 1] == s + b[..|b| - 1];
      StripRightBlanks(s, b[..|b| - 1]);
    }
  }

  lemma NumeralEnds(s: string)
    requires Numeral(s)
    ensures Digit(s[|s| - 1])
  {
  }

  /** Blanks around it, a sign and underscores inside do not change which number is read, only a minus negates it. */
  lemma NumberReads(a: string, sign: string, digits: string, b: string, n: nat)
    requires AllBlank(a) && AllBlank(b) && (sign == "" || sign == "+" || sign == "-")
    requires Numeral(digits) && DigitsOf(digits) == Decimal(n)
    ensures PythonInt(a + sign + digits + b) == Some(if sign == "-" then 0 - n else n)
  {
    var t := sign + digits;
    NumeralEnds(digits);
    assert t[|t| - 1] == digits[|digits| - 1];
    assert (t + b)[0] == t[0];
    assert a + sign + digits + b == a + (t + b);
    StripLeftBlanks(a, t + b);
    StripRightBlanks(t, b);
    UnderscoresDrop(digits, 0, false);
    ReadDecimal(n, "");
    assert Decimal(n) + "" == Decimal(n);
    assert sign != "" ==> t[1..] == digits;
    assert sign == "" ==> t == digits;
  }

  lemma {:induction false} StripLeftSplits(s: string) returns (a: string)
    ensures AllBlank(a) && s == a + StripLeft(s)
    decreases |s|
  {
    if s != "" && Blank(s[0]) {
      var rest := StripLeftSplits(s[1..]);
      a := [s[0]] + rest;
      assert s == [s[0]] + s[1..];
    } else {
      a := "";
      assert a + s == s;
    }
  }

  lemma {:induction false} StripRightSplits(s: string) returns (b: string)
    ensures AllBlank(b) && s == StripRight(s) + b
    decreases |s|
  {
    if s != "" && Blank(s[|s| - 1]) {
      var rest := StripRightSplits(s[..|s| - 1]);
      b := rest + [s[|s| - 1]];
      assert s == s[..|s| - 1] + [s[|s| - 1]];
    } else {
      b := "";
      assert s + b == s;
    }
  }

  /** Nothing else is a number. */
  lemma OnlyNumbersRead(s: string) returns (a: string, sign: string, digits: string, b: string)
    requires PythonInt(s).Some?
    ensures s == a + sign + digits + b && AllBlank(a) && AllBlank(b) && Numeral(digits)
    ensures sign == "" || sign == "+" || sign == "-"
  {
    a := StripLeftSplits(s);
    b := StripRightSplits(StripLeft(s));
    var t := StripRight(StripLeft(s));
    if t != "" && (t[0] == '-' || t[0] == '+') {
      sign, digits := [t[0]], t[1..];
    } else {
      sign, digits := "", t;
    }
    ReadDigitsIff(digits, 0, false);
    hide ReadDigits, StripLeft, StripRight, AllBlank, NumberGoesOn;
    assert t == sign + digits;
    Unnested(a, sign, digits, b);
  }

  lemma Unnested(a: string, b: string, c: string, d: string)
    ensures a + ((b + c) + d) == a + b + c + d
  {
  }
}
