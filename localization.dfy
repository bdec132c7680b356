/**
 * Message lookup of LocalizationContext.tsx: the table of the current locale
 * (or the English one), the key itself when the entry is missing or empty,
 * and the replacement of every `{i}` by the i-th argument, one argument after
 * the other. Replacement is literal.
 */
module Localization {

  datatype Locale = En | Hu

  type Messages = map<string, string>

  /** An argument of `t`: a string or a number. */
  datatype Arg = Text(text: string) | Number(number: int)

  /** The English table of en.ts. */
  function EnMessages(): Messages {
    map[
      "celestialDraw" := "Celestial Draw",
      "controlPanel" := "Control Panel",
      "maxNumber" := "Highest Number",
      "numbersToDraw" := "Numbers to Draw",
      "startDraw" := "Start Draw",
      "drawingInProgress" := "Drawing...",
      "luckyNumbers" := "Lucky Numbers",
      "language" := "Language",
      "english" := "English",
      "hungarian" := "Hungarian",
      "loading" := "Initializing Cosmic Energies...",
      "sidebarToggle" := "Toggle Sidebar",
      "maxNumberTooltip" := "The highest possible number that can be drawn (e.g., 90 for a 5/90 lottery).",
      "numbersToDrawTooltip" := "How many lucky numbers to select (1-10)."
    ]
  }

  /** The Hungarian table of hu.ts. */
  function HuMessages(): Messages {
    map[
      "celestialDraw" := "Égi Sorsolás",
      "controlPanel" := "Vezérlőpult",
      "maxNumber" := "Legmagasabb Szám",
      "numbersToDraw" := "Húzandó Számok",
      "startDraw" := "Sorsolás Indítása",
      "drawingInProgress" := "Sorsolás...",
      "luckyNumbers" := "Szerencseszámok",
      "language" := "Nyelv",
      "english" := "Angol",
      "hungarian" := "Magyar",
      "loading" := "Kozmikus Energiák Inicializálása...",
      "sidebarToggle" := "Oldalsáv Váltása",
      "maxNumberTooltip" := "A legmagasabb szám, ami húzható (pl. 90 egy 5/90-es lottónál).",
      "numbersToDrawTooltip" := "Hány szerencseszámot válasszon ki (1-10)."
    ]
  }

  /** `translations`: one table per locale. */
  function Translations(): map<Locale, Messages> {
    map[En := EnMessages(), Hu := HuMessages()]
  }

  /** `messageSet[key] || String(key)`: a missing or empty entry falls back to the key. */
  function Lookup(messages: Messages, key: string): string {
    if key in messages && messages[key] != "" then messages[key] else key
  }

  function DigitChar(d: nat): char
    requires d < 10
  {
    "0123456789"[d]
  }

  /** The decimal digits of n, as `String` writes a non-negative integer. */
  function NatString(n: nat): (r: string)
    ensures |r| > 0
    decreases n
  {
    if n < 10 then [DigitChar(n)] else NatString(n / 10) + [DigitChar(n % 10)]
  }

  /** `String(arg)` for a string or an integer argument. */
  function ArgString(a: Arg): string {
    match a
    case Text(t) => t
    case Number(n) => if n < 0 then "-" + NatString(-n) else NatString(n)
  }

  /** The text matched by `new RegExp('\\{' + i + '\\}', 'g')`. */
  function Placeholder(i: nat): (r: string)
    ensures |r| >= 3
  {
    "{" + NatString(i) + "}"
  }

  /** The pattern occurs in s starting at position i. */
  predicate OccursAt(s: string, pattern: string, i: int) {
    0 <= i && i + |pattern| <= |s| && s[i..i + |pattern|] == pattern
  }

  predicate Occurs(s: string, pattern: string) {
    exists i :: 0 <= i <= |s| && OccursAt(s, pattern, i)
  }

  /**
   * `s.replace(/pattern/g, replacement)` for a literal pattern: scanning left
   * to right, each non-overlapping occurrence is replaced.
   */
  function ReplaceAll(s: string, pattern: string, replacement: string): string
    requires |pattern| > 0
    decreases |s|
  {
    if |s| < |pattern| then s
    else if s[..|pattern|] == pattern then replacement + ReplaceAll(s[|pattern|..], pattern, replacement)
    else [s[0]] + ReplaceAll(s[1..], pattern, replacement)
  }

  /** The `forEach` over the arguments from index i on, each step applied to the previous step's output. */
  function FillFrom(message: string, args: seq<Arg>, i: nat): string
    requires i <= |args|
    decreases |args| - i
  {
    if i == |args| then message
    else FillFrom(ReplaceAll(message, Placeholder(i), ArgString(args[i])), args, i + 1)
  }

  /** `t(key, ...args)` for the given translations and current locale. */
  function Translate(translations: map<Locale, Messages>, locale: Locale, key: string, args: seq<Arg>): string
    requires En in translations
  {
    var messageSet := if locale in translations then translations[locale] else translations[En];
    var message := Lookup(messageSet, key);
    if |args| > 0 then FillFrom(message, args, 0) else message
  }

  /** A string in which the pattern does not occur is left as it is. */
  lemma {:induction false} ReplaceAllAbsent(s: string, pattern: string, replacement: string)
    requires |pattern| > 0 && !Occurs(s, pattern)
    ensures ReplaceAll(s, pattern, replacement) == s
    decreases |s|
  {
    if |s| >= |pattern| {
      assert !OccursAt(s, pattern, 0);
      var tail := s[1..];
      if Occurs(tail, pattern) {
        var i :| 0 <= i <= |tail| && OccursAt(tail, pattern, i);
        assert s[i + 1..i + 1 + |pattern|] == tail[i..i + |pattern|];
        assert OccursAt(s, pattern, i + 1);
      }
      ReplaceAllAbsent(tail, pattern, replacement);
      assert s == [s[0]] + tail;
    }
  }

  /** A message containing no `{k}` for any remaining argument index k comes out unchanged. */
  lemma {:induction false} FillWithoutPlaceholders(message: string, args: seq<Arg>, i: nat)
    requires i <= |args|
    requires forall k :: i <= k < |args| ==> !Occurs(message, Placeholder(k))
    ensures FillFrom(message, args, i) == message
    decreases |args| - i
  {
    if i < |args| {
      ReplaceAllAbsent(message, Placeholder(i), ArgString(args[i]));
      FillWithoutPlaceholders(message, args, i + 1);
    }
  }

  /** `t` with no arguments returns the looked-up message unchanged. */
  lemma TranslateWithoutArgs(translations: map<Locale, Messages>, locale: Locale, key: string)
    requires En in translations
    ensures Translate(translations, locale, key, [])
         == Lookup(if locale in translations then translations[locale] else translations[En], key)
  {
  }

  /** A locale without a table is served from the English one. */
  lemma MissingLocaleFallsBackToEnglish(translations: map<Locale, Messages>, locale: Locale, key: string, args: seq<Arg>)
    requires En in translations && locale !in translations
    ensures Translate(translations, locale, key, args) == Translate(translations, En, key, args)
  {
  }

  /**
   * A key whose entry is missing or empty yields the key's own name, as long
   * as the name holds no placeholder the arguments would fill.
   */
  lemma MissingKeyYieldsKey(translations: map<Locale, Messages>, locale: Locale, key: string, args: seq<Arg>)
    requires En in translations
    requires var m := if locale in translations then translations[locale] else translations[En];
      key !in m || m[key] == ""
    requires forall k :: 0 <= k < |args| ==> !Occurs(key, Placeholder(k))
    ensures Translate(translations, locale, key, args) == key
  {
    if |args| > 0 {
      FillWithoutPlaceholders(key, args, 0);
    }
  }

  /** A message with no placeholder for any argument is returned as looked up. */
  lemma ArgsWithoutPlaceholdersChangeNothing(translations: map<Locale, Messages>, locale: Locale, key: string, args: seq<Arg>)
    requires En in translations
    requires var m := if locale in translations then translations[locale] else translations[En];
      forall k :: 0 <= k < |args| ==> !Occurs(Lookup(m, key), Placeholder(k))
    ensures Translate(translations, locale, key, args) == Translate(translations, locale, key, [])
  {
    if |args| > 0 {
      var m := if locale in translations then translations[locale] else translations[En];
      FillWithoutPlaceholders(Lookup(m, key), args, 0);
    }
  }

  /** The shipped tables: both locales have the same keys and no empty entry, so every key is found. */
  lemma ShippedTablesCoverEveryKey(locale: Locale, key: string)
    requires key in EnMessages()
    ensures locale in Translations() && key in Translations()[locale]
    ensures Translate(Translations(), locale, key, []) == Translations()[locale][key] != ""
  {
  }

  /** The first two patterns, `{0}` and `{1}`; a helper for concrete messages. */
  lemma PlaceholderDigits()
    ensures Placeholder(0) == "{0}" && Placeholder(1) == "{1}"
  {
    assert NatString(0) == [DigitChar(0)] == "0";
    assert NatString(1) == [DigitChar(1)] == "1";
  }

  /** No character of a placeholder after its opening brace is a brace. */
  lemma PlaceholderOpensOnce(i: nat)
    ensures Placeholder(i)[0] !in Placeholder(i)[1..]
  {
    var p := Placeholder(i);
    assert p[1..] == NatString(i) + "}";
    NatStringHasNoBrace(i);
  }

  lemma {:induction false} NatStringHasNoBrace(n: nat)
    ensures '{' !in NatString(n)
    decreases n
  {
    if n >= 10 {
      NatStringHasNoBrace(n / 10);
    }
  }

  /** An occurrence in the tail of s is an occurrence in s, one position later. */
  lemma OccursInTail(s: string, pattern: string)
    requires |s| > 0 && Occurs(s[1..], pattern)
    ensures Occurs(s, pattern)
  {
    var i :| 0 <= i <= |s[1..]| && OccursAt(s[1..], pattern, i);
    assert s[i + 1..i + 1 + |pattern|] == s[1..][i..i + |pattern|];
    assert OccursAt(s, pattern, i + 1);
  }

  /** Before the first occurrence, the scan does not match at the start. */
  lemma NoMatchBeforeOccurrence(a: string, pattern: string, b: string)
    requires |a| > 0 && |pattern| > 0 && pattern[0] !in pattern[1..] && !Occurs(a, pattern)
    ensures |a + pattern + b| >= |pattern| && (a + pattern + b)[..|pattern|] != pattern
  {
    var s := a + pattern + b;
    if |a| >= |pattern| {
      assert s[..|pattern|] == a[..|pattern|];
      assert !OccursAt(a, pattern, 0);
    } else {
      assert s[|a|] == pattern[0];
      assert pattern[1..][|a| - 1] == pattern[|a|];
    }
  }

  /**
   * The first occurrence of a pattern whose first character does not recur
   * in it is replaced, and the scan carries on right after it.
   */
  lemma {:induction false} ReplaceAllAtOccurrence(a: string, pattern: string, b: string, replacement: string)
    requires |pattern| > 0 && pattern[0] !in pattern[1..] && !Occurs(a, pattern)
    ensures ReplaceAll(a + pattern + b, pattern, replacement) == a + replacement + ReplaceAll(b, pattern, replacement)
    decreases |a|
  {
    if |a| == 0 {
      ReplaceAllAtStart(pattern, b, replacement);
      assert a + pattern + b == pattern + b;
    } else {
      var s := a + pattern + b;
      NoMatchBeforeOccurrence(a, pattern, b);
      if Occurs(a[1..], pattern) {
        OccursInTail(a, pattern);
      }
      ReplaceAllAtOccurrence(a[1..], pattern, b, replacement);
      assert s[1..] == a[1..] + pattern + b;
      assert ReplaceAll(s, pattern, replacement) == [s[0]] + ReplaceAll(s[1..], pattern, replacement);
      assert a == [a[0]] + a[1..];
    }
  }

  /** A string that starts with the pattern: it is replaced and the scan resumes after it. */
  lemma ReplaceAllAtStart(pattern: string, b: string, replacement: string)
    requires |pattern| > 0
    ensures ReplaceAll(pattern + b, pattern, replacement) == replacement + ReplaceAll(b, pattern, replacement)
  {
    var s := pattern + b;
    assert s[..|pattern|] == pattern;
    assert s[|pattern|..] == b;
  }

  /**
   * A message with a single `{0}` and one argument: the placeholder is
   * replaced by `String(arg)` and the text around it is kept.
   */
  lemma SinglePlaceholderIsFilled(translations: map<Locale, Messages>, locale: Locale, key: string, a: string, b: string, arg: Arg)
    requires En in translations
    requires var m := if locale in translations then translations[locale] else translations[En];
      Lookup(m, key) == a + Placeholder(0) + b
    requires !Occurs(a, Placeholder(0)) && !Occurs(b, Placeholder(0))
    ensures Translate(translations, locale, key, [arg]) == a + ArgString(arg) + b
  {
    PlaceholderOpensOnce(0);
    ReplaceAllAtOccurrence(a, Placeholder(0), b, ArgString(arg));
    ReplaceAllAbsent(b, Placeholder(0), ArgString(arg));
    var message := a + Placeholder(0) + b;
    assert FillFrom(message, [arg], 0) == FillFrom(a + ArgString(arg) + b, [arg], 1);
  }

  /**
   * The arguments are applied one after the other, each to the previous
   * output: for a message that is just `{0}`, the result is the first
   * argument with every `{1}` in it filled by the second.
   */
  lemma LaterArgumentsFillEarlierOutput(translations: map<Locale, Messages>, locale: Locale, key: string, args: seq<Arg>)
    requires En in translations && |args| == 2
    requires var m := if locale in translations then translations[locale] else translations[En];
      Lookup(m, key) == Placeholder(0)
    ensures Translate(translations, locale, key, args)
         == ReplaceAll(ArgString(args[0]), Placeholder(1), ArgString(args[1]))
  {
    PlaceholderOpensOnce(0);
    ReplaceAllAtOccurrence("", Placeholder(0), "", ArgString(args[0]));
    assert "" + Placeholder(0) + "" == Placeholder(0);
    assert "" + ArgString(args[0]) + "" == ArgString(args[0]);
    var first := ArgString(args[0]);
    assert FillFrom(Placeholder(0), args, 0) == FillFrom(first, args, 1);
    assert FillFrom(first, args, 1) == FillFrom(ReplaceAll(first, Placeholder(1), ArgString(args[1])), args, 2);
  }

  /** A `{1}` brought in by the first argument is filled by the second. */
  lemma SecondArgumentFillsFirst()
    ensures Translate(map[En := map["k" := "{0}"]], Hu, "k", [Text("{1}"), Number(7)]) == "7"
  {
    PlaceholderDigits();
    LaterArgumentsFillEarlierOutput(map[En := map["k" := "{0}"]], Hu, "k", [Text("{1}"), Number(7)]);
    assert ArgString(Number(7)) == [DigitChar(7)] == "7";
    PlaceholderOpensOnce(1);
    ReplaceAllAtOccurrence("", Placeholder(1), "", "7");
    assert "" + Placeholder(1) + "" == Placeholder(1);
  }

  /** The locale state of `LocalizationProvider`. */
  class LocalizationProvider {
    var locale: Locale

    constructor ()
      ensures locale == En
    {
      locale := En;
    }

    /** `setLocale` changes the locale and nothing else. */
    method SetLocale(newLocale: Locale)
      modifies this
      ensures locale == newLocale
    {
      locale := newLocale;
    }

    /** `t` at the current locale; a shipped key without arguments gives that locale's own text. */
    function T(key: string, args: seq<Arg>): (r: string)
      reads this
      ensures key in EnMessages() && args == [] ==>
                locale in Translations() && key in Translations()[locale] && r == Translations()[locale][key] != ""
    {
      if key in EnMessages() then
        ShippedTablesCoverEveryKey(locale, key);
        Translate(Translations(), locale, key, args)
      else
        Translate(Translations(), locale, key, args)
    }
  }
}
