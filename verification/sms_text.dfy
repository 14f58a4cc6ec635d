/**
  What an SMS costs: segment counting for GSM-7 and UCS-2 texts (section 6.2.1 of 3GPP TS 23.038) and the
  transliteration of Mongolian Cyrillic that is meant to make texts cheaper. A text is a sequence of code
  points; its length counts UTF-16 units, as in the source.
*/
module SmsText {
  import opened Options

  /** The other letters and signs of the alphabet. */
  predicate IsGsmOther(c: char) {
    c in "£¥èéùìòÇØøÅåΔΦΓΛΩΠΨΣΘΞÆæßÉ¤¡ÄÖÑÜ§¿äöñüà"
  }

  /** The GSM-7 alphabet of the source: no escape characters such as brackets or the euro sign. */
  predicate IsGsm(c: char) {
    ' ' <= c <= 'Z' || 'a' <= c <= 'z' || c == '_' || c == '\n' || c == '\r' || IsGsmOther(c)
  }

  predicate AllGsm(text: string) {
    forall i :: 0 <= i < |text| ==> IsGsm(text[i])
  }

  function Units(c: char): nat {
    if c as int > 0xFFFF then 2 else 1
  }

  /** The length of a text in UTF-16 units. */
  function Length(text: string): nat {
    if text == "" then 0 else Length(text[..|text| - 1]) + Units(text[|text| - 1])
  }

  function Parts(length: nat, single: nat, multi: nat): nat
    requires multi > 0
  {
    if length <= single then 1 else (length + multi - 1) / multi
  }

  function Segments(text: string): nat {
    if text == "" then 0
    else if AllGsm(text) then Parts(Length(text), 160, 153)
    else Parts(Length(text), 70, 67)
  }

  /** What a number of segments can carry: a lone one is larger, as it needs no part header. */
  function Capacity(gsm: bool, n: nat): nat {
    if n == 1 then (if gsm then 160 else 70) else n * (if gsm then 153 else 67)
  }

  /** The count is the least number of segments that can carry the text. */
  lemma SegmentsExactly(text: string, n: nat)
    ensures Segments(text) <= n <==> Length(text) <= Capacity(AllGsm(text), n)
  {
    hide Length, IsGsm;
    if text == "" { EmptyLength(); } else { PositiveLength(text); }
  }

  lemma EmptyLength()
    ensures Length("") == 0
  {
  }

  lemma PositiveLength(text: string)
    requires text != ""
    ensures Length(text) >= 1
  {
  }

  // ---------------------------------------------------------- transliteration

  /** The lower case of the letters that matter here; other letters have no replacement in either case. */
  function Lower(c: char): char {
    if 'А' <= c <= 'Я' then (c as int + 32) as char
    else if c == 'Ё' then 'ё'
    else if c == 'Ө' then 'ө'
    else if c == 'Ү' then 'ү'
    else c
  }

  /** At most two letters, signs of the basic alphabet. */
  predicate Plain(s: string) {
    && |s| <= 2
    && forall i :: 0 <= i < |s| ==> 'a' <= s[i] <= 'z' || s[i] in "TN-\""
  }

  /** The replacements, as far as the letter n. */
  function ReplacementToN(c: char): (r: Option<string>)
    ensures r.Some? ==> Plain(r.value) && 'а' <= c <= 'н'
  {
    match c
    case 'а' => Some("a") case 'б' => Some("b") case 'в' => Some("v") case 'г' => Some("g")
    case 'д' => Some("d") case 'е' => Some("ye") case 'ж' => Some("j") case 'з' => Some("z")
    case 'и' => Some("i") case 'й' => Some("i") case 'к' => Some("k") case 'л' => Some("l")
    case 'м' => Some("m") case 'н' => Some("n")
    case _ => None
  }

  /** The replacements from the letter o on. */
  function ReplacementFromO(c: char): (r: Option<string>)
    ensures r.Some? ==> Plain(r.value) && 'о' <= c <= 'я'
  {
    match c
    case 'о' => Some("o") case 'п' => Some("p") case 'р' => Some("r") case 'с' => Some("s")
    case 'т' => Some("t") case 'у' => Some("u") case 'ф' => Some("f") case 'х' => Some("kh")
    case 'ц' => Some("ts") case 'ч' => Some("ch") case 'ш' => Some("sh") case 'щ' => Some("sh")
    case 'ъ' => Some("") case 'ы' => Some("y") case 'ь' => Some("i") case 'э' => Some("e")
    case 'ю' => Some("yu") case 'я' => Some("ya")
    case _ => None
  }

  /** The letters outside the Russian alphabet's range, and the signs. */
  function ReplacementOther(c: char): (r: Option<string>)
    ensures r.Some? ==> Plain(r.value) && c in "ёөү₮№«»—–“”"
  {
    match c
    case 'ё' => Some("yo") case 'ө' => Some("u") case 'ү' => Some("u") case '₮' => Some("T")
    case '№' => Some("No") case '«' => Some("\"") case '»' => Some("\"") case '—' => Some("-")
    case '–' => Some("-") case '“' => Some("\"") case '”' => Some("\"")
    case _ => None
  }

  function Replacement(c: char): (r: Option<string>)
    ensures r.Some? ==> Plain(r.value) && c as int <= 0xFFFF
  {
    if 'а' <= c <= 'н' then ReplacementToN(c)
    else if 'о' <= c <= 'я' then ReplacementFromO(c)
    else ReplacementOther(c)
  }

  function Capital(s: string): string {
    if s != "" && 'a' <= s[0] <= 'z' then [(s[0] as int - 32) as char] + s[1..] else s
  }

  predicate Replaced(c: char) {
    Replacement(Lower(c)).Some?
  }

  /** What one character becomes. */
  function Latin(c: char): string {
    if !Replaced(c) then [c]
    else if c == Lower(c) then Replacement(c).value
    else Capital(Replacement(Lower(c)).value)
  }

  function Translit(text: string): string {
    if text == "" then "" else Translit(text[..|text| - 1]) + Latin(text[|text| - 1])
  }

  /** `transliterateMn`: one pass that appends to the output. */
  method TransliterateMn(text: string) returns (out: string)
    ensures out == Translit(text)
  {
    hide Replacement;
    out := "";
    for i := 0 to |text|
      invariant out == Translit(text[..i])
    {
      assert text[..i + 1][..i] == text[..i];
      var ch := text[i];
      var lower := Lower(ch);
      var mapped := Replacement(lower);
      if mapped.None? {
        out := out + [ch];
      } else if ch == lower {
        out := out + mapped.value;
      } else {
        out := out + Capital(mapped.value);
      }
    }
    assert text[..|text|] == text;
  }

  // ------------------------------------------------------------ single letters

  /** What the letters from а to я become, in the order of the alphabet. */
  const LETTERS: seq<string> := [
    "a", "b", "v", "g", "d", "ye", "j", "z", "i", "i", "k", "l", "m", "n", "o", "p",
    "r", "s", "t", "u", "f", "kh", "ts", "ch", "sh", "sh", "", "y", "i", "e", "yu", "ya"]

  /** A capital becomes the same with its first letter, and only that, in upper case. */
  ghost predicate Capitalised(upper: string, lower: string) {
    |upper| == |lower| &&
    (lower != "" ==> upper[0] as int == lower[0] as int - 32 && upper[1..] == lower[1..])
  }

  /** A replacement that starts like a word, or is empty, and the two cases of its letter. */
  lemma BothCases(lower: char, upper: char, s: string)
    requires Lower(lower) == lower == Lower(upper) && upper != lower && Replacement(lower) == Some(s)
    requires s == "" || 'a' <= s[0] <= 'z'
    ensures Latin(lower) == s && Capitalised(Latin(upper), s)
  {
    hide Replacement, Lower;
  }

  lemma FirstLetters(k: nat)
    requires k < 14
    ensures ReplacementToN((0x430 + k) as char) == Some(LETTERS[k]) && 'a' <= LETTERS[k][0] <= 'z'
  {
  }

  lemma MiddleLetters(k: nat)
    requires 14 <= k < 24
    ensures ReplacementFromO((0x430 + k) as char) == Some(LETTERS[k]) && 'a' <= LETTERS[k][0] <= 'z'
  {
  }

  lemma LastLetters(k: nat)
    requires 24 <= k < 32
    ensures ReplacementFromO((0x430 + k) as char) == Some(LETTERS[k])
    ensures LETTERS[k] == "" || 'a' <= LETTERS[k][0] <= 'z'
  {
  }

  lemma LettersExactly(k: nat)
    requires k < 32
    ensures var lower, upper := (0x430 + k) as char, (0x410 + k) as char;
      Latin(lower) == LETTERS[k] && Capitalised(Latin(upper), LETTERS[k])
  {
    hide ReplacementToN, ReplacementFromO, ReplacementOther, Latin, Capitalised;
    if k < 14 { FirstLetters(k); } else if k < 24 { MiddleLetters(k); } else { LastLetters(k); }
    BothCases((0x430 + k) as char, (0x410 + k) as char, LETTERS[k]);
  }

  /** The letters outside that range. */
  lemma OtherLettersExactly()
    ensures Latin('ё') == "yo" && Capitalised(Latin('Ё'), "yo")
    ensures Latin('ө') == Latin('ү') == "u" && Capitalised(Latin('Ө'), "u") && Capitalised(Latin('Ү'), "u")
  {
    OtherReplacements();
    hide Replacement, Latin, Capitalised;
    BothCases('ё', 'Ё', "yo");
    BothCases('ө', 'Ө', "u");
    BothCases('ү', 'Ү', "u");
  }

  lemma OtherReplacements()
    ensures Replacement('ё') == Some("yo") && Replacement('ө') == Replacement('ү') == Some("u")
  {
    hide ReplacementToN, ReplacementFromO;
  }

  lemma SignsExactly()
    ensures Latin('₮') == "T" && Latin('№') == "No" && Latin('—') == Latin('–') == "-"
    ensures Latin('«') == Latin('»') == Latin('“') == Latin('”') == "\""
  {
    SignReplacements();
    QuoteReplacements();
    hide Replacement;
  }

  lemma SignReplacements()
    ensures Replacement('₮') == Some("T") && Replacement('№') == Some("No")
    ensures Replacement('—') == Replacement('–') == Some("-")
  {
    hide ReplacementToN, ReplacementFromO;
  }

  lemma QuoteReplacements()
    ensures Replacement('«') == Replacement('»') == Replacement('“') == Replacement('”') == Some("\"")
  {
    hide ReplacementToN, ReplacementFromO;
  }

  lemma OtherRange(c: char)
    requires c in "£¥èéùìòÇØøÅåÆæßÉ¤¡ÄÖÑÜ§¿äöñüà" || c in "ΔΦΓΛΩΠΨΣΘΞ"
    ensures c < 'А' && c != 'Ё' && c != '«' && c != '»'
  {
    if c in "ΔΦΓΛΩΠΨΣΘΞ" { assert 'Γ' <= c <= 'Ω'; } else { assert c <= 'ü'; }
  }

  lemma GsmRange(c: char)
    requires IsGsm(c)
    ensures c < 'А' && c != 'Ё' && c != '«' && c != '»'
  {
    if IsGsmOther(c) { OtherRange(c); }
  }

  /** A GSM-7 character is its own lower case and has no replacement. */
  lemma GsmKept(c: char)
    requires IsGsm(c)
    ensures Latin(c) == [c]
  {
    hide IsGsm, ReplacementToN, ReplacementFromO;
    GsmRange(c);
  }

  lemma BasicIsGsm(c: char)
    requires 'a' <= c <= 'z' || 'A' <= c <= 'Z' || c in "-\""
    ensures IsGsm(c) && Units(c) == 1
  {
  }

  /** A replacement is a GSM-7 text of at most two units. */
  lemma LatinShape(c: char)
    requires Replaced(c)
    ensures AllGsm(Latin(c)) && |Latin(c)| <= 2 && Units(c) == 1
    ensures forall i :: 0 <= i < |Latin(c)| ==> Units(Latin(c)[i]) == 1
  {
    hide IsGsm, Replacement;
    var s := Latin(c);
    assert |s| <= 2 && forall i :: 0 <= i < |s| ==> 'a' <= s[i] <= 'z' || 'A' <= s[i] <= 'Z' || s[i] in "-\"";
    forall i | 0 <= i < |s| ensures IsGsm(s[i]) && Units(s[i]) == 1 { BasicIsGsm(s[i]); }
  }

  // ---------------------------------------------------------------- whole texts

  lemma {:induction false} LengthAppend(a: string, b: string)
    ensures Length(a + b) == Length(a) + Length(b)
  {
    if b == "" {
      assert a + b == a;
    } else {
      var n := |b| - 1;
      assert (a + b)[..|a| + n] == a + b[..n];
      LengthAppend(a, b[..n]);
    }
  }

  lemma {:induction false} LengthOfBasic(s: string)
    requires forall i :: 0 <= i < |s| ==> Units(s[i]) == 1
    ensures Length(s) == |s|
  {
    if s != "" { LengthOfBasic(s[..|s| - 1]); }
  }

  lemma {:induction false} TranslitAppend(a: string, b: string)
    ensures Translit(a + b) == Translit(a) + Translit(b)
  {
    hide Latin;
    if b == "" {
      assert a + b == a;
    } else {
      var n := |b| - 1;
      assert (a + b)[..|a| + n] == a + b[..n];
      TranslitAppend(a, b[..n]);
    }
  }

  lemma TranslitOne(c: char)
    ensures Translit([c]) == Latin(c)
  {
    assert [c][..0] == "";
  }

  /** GSM-7 texts are left alone. */
  lemma {:induction false} GsmUnchanged(text: string)
    requires AllGsm(text)
    ensures Translit(text) == text
  {
    hide IsGsm, Latin;
    if text != "" {
      var n := |text| - 1;
      GsmUnchanged(text[..n]);
      GsmKept(text[n]);
      assert text == text[..n] + [text[n]];
    }
  }

  lemma LatinGsm(c: char)
    ensures AllGsm(Latin(c)) <==> IsGsm(c) || Replaced(c)
  {
    if Replaced(c) {
      LatinShape(c);
    } else {
      hide IsGsm;
      assert Latin(c) == [c] && [c][0] == c;
    }
  }

  /** The result is all GSM-7 exactly when every character was or has a replacement. */
  lemma {:induction false} GsmExactly(text: string)
    ensures AllGsm(Translit(text)) <==> forall i :: 0 <= i < |text| ==> IsGsm(text[i]) || Replaced(text[i])
  {
    hide IsGsm, Latin, Replaced;
    if text != "" {
      var n := |text| - 1;
      GsmExactly(text[..n]);
      LatinGsm(text[n]);
      GsmAppend(Translit(text[..n]), Latin(text[n]));
    }
  }

  lemma GsmAppend(a: string, b: string)
    ensures AllGsm(a + b) <==> AllGsm(a) && AllGsm(b)
  {
    hide IsGsm;
    if AllGsm(a + b) {
      forall i | 0 <= i < |a| ensures IsGsm(a[i]) { assert a[i] == (a + b)[i]; }
      forall i | 0 <= i < |b| ensures IsGsm(b[i]) { assert b[i] == (a + b)[|a| + i]; }
    }
  }

  lemma LatinFixed(c: char)
    ensures Translit(Latin(c)) == Latin(c)
  {
    if Replaced(c) {
      LatinShape(c);
      GsmUnchanged(Latin(c));
    } else {
      TranslitOne(c);
    }
  }

  /** Transliterating twice is transliterating once. */
  lemma {:induction false} Idempotent(text: string)
    ensures Translit(Translit(text)) == Translit(text)
  {
    if text != "" {
      var n := |text| - 1;
      hide Latin;
      Idempotent(text[..n]);
      LatinFixed(text[n]);
      TranslitAppend(Translit(text[..n]), Latin(text[n]));
    }
  }

  lemma LatinLength(c: char)
    ensures Length(Latin(c)) <= 2 * Units(c)
  {
    if Replaced(c) {
      LatinShape(c);
      LengthOfBasic(Latin(c));
    } else {
      assert [c][..0] == "";
    }
  }

  /** Transliteration at most doubles the length. */
  lemma {:induction false} AtMostDoubles(text: string)
    ensures Length(Translit(text)) <= 2 * Length(text)
  {
    if text != "" {
      var n := |text| - 1;
      hide Latin;
      AtMostDoubles(text[..n]);
      LatinLength(text[n]);
      LengthAppend(Translit(text[..n]), Latin(text[n]));
    }
  }

  /** A transliterated text that is all GSM-7 never costs more segments than the original. */
  lemma NeverCostsMore(text: string)
    requires AllGsm(Translit(text))
    ensures Segments(Translit(text)) <= Segments(text)
  {
    hide IsGsm, Length, Translit;
    if AllGsm(text) {
      GsmUnchanged(text);
    } else {
      AtMostDoubles(text);
      if Translit(text) != "" { PositiveLength(text); }
    }
  }

  /** Whatever the text, the cost at most triples. */
  lemma AtMostTriples(text: string)
    ensures Segments(Translit(text)) <= 3 * Segments(text)
  {
    hide IsGsm, Length, Translit;
    if AllGsm(Translit(text)) {
      NeverCostsMore(text);
    } else if text != "" {
      if AllGsm(text) { GsmUnchanged(text); }
      AtMostDoubles(text);
    } else {
      TranslitEmpty();
    }
  }

  lemma TranslitEmpty()
    ensures Translit("") == ""
  {
  }

  /** The length of the result, read off the original: the lengths of what its characters become. */
  function Grown(text: string): nat {
    if text == "" then 0 else Grown(text[..|text| - 1]) + Length(Latin(text[|text| - 1]))
  }

  lemma {:induction false} GrownExactly(text: string)
    ensures Length(Translit(text)) == Grown(text)
  {
    hide Latin, Length;
    if text == "" {
      EmptyLength();
    } else {
      var n := |text| - 1;
      GrownExactly(text[..n]);
      LengthAppend(Translit(text[..n]), Latin(text[n]));
    }
  }

  /** Some character is neither in the alphabet nor replaced, so the text stays in UCS-2. */
  predicate StaysWide(text: string) {
    exists i :: 0 <= i < |text| && !IsGsm(text[i]) && !Replaced(text[i])
  }

  /**
    A text becomes dearer if and only if one of its characters stays outside GSM-7 and its letters grow beyond
    what the original's segments can carry.
  */
  lemma DearerExactly(text: string)
    ensures Segments(Translit(text)) > Segments(text) <==>
            StaysWide(text) && Grown(text) > Capacity(false, Segments(text))
  {
    hide Length, IsGsm, Translit, Replaced, Grown, Segments, Capacity, AllGsm;
    GsmExactly(text);
    GrownExactly(text);
    SegmentsExactly(Translit(text), Segments(text));
    if !StaysWide(text) { NeverCostsMore(text); }
  }

  function Repeat(c: char, n: nat): (s: string)
    ensures |s| == n
  {
    if n == 0 then "" else Repeat(c, n - 1) + [c]
  }

  lemma {:induction false} RepeatedKh(n: nat)
    ensures Length(Repeat('х', n)) == n
    ensures Length(Translit(Repeat('х', n))) == 2 * n
  {
    assert Latin('х') == "kh" && Units('х') == 1;
    hide Latin, Replacement;
    if n > 0 {
      RepeatedKh(n - 1);
      var s := Repeat('х', n);
      assert s[..n - 1] == Repeat('х', n - 1) && s[n - 1] == 'х';
      LengthOfBasic("kh");
      LengthAppend(Translit(s[..n - 1]), "kh");
    }
  }

  lemma OtherHigh(c: char)
    requires IsGsmOther(c)
    ensures c > 'z'
  {
  }

  lemma BracketKept()
    ensures !IsGsm('[') && Units('[') == 1 && Latin('[') == "["
  {
    assert Latin('[') == "[" by { assert Replacement('[') == ReplacementOther('[') == None; }
    hide IsGsmOther, Latin, Replacement;
    if IsGsmOther('[') { OtherHigh('['); }
  }

  lemma Bracketed(text: string)
    ensures Length(text + "[") == Length(text) + 1 && !AllGsm(text + "[")
    ensures Translit(text + "[") == Translit(text) + "["
  {
    BracketKept();
    hide IsGsm, Latin, Units;
    var t := text + "[";
    assert t[..|text|] == text && t[|text|] == '[';
    assert !IsGsm(t[|text|]);
  }

  /** One bracket keeps a text in UCS-2: 69 letters and a bracket go from one segment to three. */
  lemma BracketTriples()
    ensures var text := Repeat('х', 69) + "[";
      Segments(text) == 1 && Segments(Translit(text)) == 3
  {
    RepeatedKh(69);
    Bracketed(Repeat('х', 69));
    Bracketed(Translit(Repeat('х', 69)));
    hide Length, Translit, Repeat, IsGsm, AllGsm;
  }
}
