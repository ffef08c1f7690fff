/**
  The reply formatter of the translate command (`Translate.exec` after the
  provider answered): the requested, detected and target display names, the
  mismatch flag, and the reply text built from them.
 */
module Formatter {
  import opened Wrappers
  import opened AsciiCase
  import opened LanguageRegistry
  import opened Interpreter

  /** The provider's answer: the translated text and the ISO code of the language it detected. */
  datatype Translation = Translation(text: string, iso: string)

  /** The three display names the reply mentions; `None` is a lookup that gave `undefined`. */
  datatype Names = Names(requested: Option<string>, detected: Option<string>, target: Option<string>)

  const WarningPrefix := ":warning:    "
  const Gap := "    "

  /** The closing line that proposes the detected language instead of the requested one. */
  function Suggestion(detected: string, isoUpper: string): string
  {
    "\n\nYou might have meant to translate from " + detected + " (" + isoUpper
      + ") instead. Translation may not be accurate."
  }

  /**
    The names the reply shows. With source "auto" nothing was requested, so the
    requested name is the detected one.
   */
  function ResolveNames(reg: Registry, from: string, to: string, iso: string): (n: Names)
    ensures n.detected == NameOf(reg, iso) && n.target == NameOf(reg, to)
    ensures from == Auto ==> n.requested == n.detected
    ensures from != Auto ==> n.requested == NameOf(reg, from)
  {
    Names(if from == Auto then NameOf(reg, iso) else NameOf(reg, from), NameOf(reg, iso), NameOf(reg, to))
  }

  /** The warning flag: the requested and detected names differ (`!==`, so two `undefined` agree). */
  predicate Mismatch(n: Names)
  {
    n.requested != n.detected
  }

  /** The part of the reply that is always there: the monospace language tag, a gap, and the translated text. */
  function Body(n: Names, text: string, monospace: string -> string): string
  {
    monospace("[ " + Show(n.requested) + " >> " + Show(n.target) + " ]") + Gap + text
  }

  /**
    The reply: the warning prefix if the names mismatch, the body, and the
    suggestion line if they mismatch. `monospace` stands for `TextFormatter.monospace`.
   */
  function Format(reg: Registry, from: string, to: string, t: Translation, monospace: string -> string): (reply: string)
    ensures var n := ResolveNames(reg, from, to, t.iso);
            var body := Body(n, t.text, monospace);
            var tail := Suggestion(Show(n.detected), Upper(t.iso));
            && (Mismatch(n) ==> |reply| == |WarningPrefix| + |body| + |tail|
                                && reply[..|WarningPrefix|] == WarningPrefix
                                && reply[|WarningPrefix|..|WarningPrefix| + |body|] == body
                                && reply[|reply| - |tail|..] == tail)
            && (!Mismatch(n) ==> reply == body)
  {
    var n := ResolveNames(reg, from, to, t.iso);
    var warn := Mismatch(n);
    (if warn then WarningPrefix else "") + Body(n, t.text, monospace)
      + (if warn then Suggestion(Show(n.detected), Upper(t.iso)) else "")
  }

  /** With source "auto" the reply never warns: it is exactly the tag and the text. */
  lemma AutoNeverWarns(reg: Registry, to: string, t: Translation, monospace: string -> string)
    ensures !Mismatch(ResolveNames(reg, Auto, to, t.iso))
    ensures Format(reg, Auto, to, t, monospace)
            == monospace("[ " + Show(NameOf(reg, t.iso)) + " >> " + Show(NameOf(reg, to)) + " ]") + Gap + t.text
  {
  }

  /** With an explicit source the reply warns exactly when its display name differs from the detected one. */
  lemma ExplicitSourceWarnsIff(reg: Registry, from: string, to: string, t: Translation)
    requires from != Auto
    ensures Mismatch(ResolveNames(reg, from, to, t.iso)) <==> NameOf(reg, from) != NameOf(reg, t.iso)
  {
  }

  /**
    The reply carries anything beyond the tag and the text exactly when the
    names mismatch: prefix and suggestion line come together or not at all.
   */
  lemma ExtrasIffMismatch(reg: Registry, from: string, to: string, t: Translation,
                                             monospace: string -> string)
    ensures var n := ResolveNames(reg, from, to, t.iso);
            Format(reg, from, to, t, monospace) == Body(n, t.text, monospace) <==> !Mismatch(n)
  {
  }

  /** A reply that mismatches names the detected language and the upper-cased ISO code in its last line. */
  lemma WarningNamesDetected(reg: Registry, from: string, to: string, t: Translation,
                                                monospace: string -> string)
    requires from != Auto && NameOf(reg, from) != NameOf(reg, t.iso)
    ensures var reply := Format(reg, from, to, t, monospace);
            var tail := Suggestion(Show(NameOf(reg, t.iso)), Upper(t.iso));
            |tail| <= |reply| && reply[|reply| - |tail|..] == tail
  {
  }

  /** A sample rendering for the examples below: Discord's inline-code backticks. */
  function Backticks(s: string): string
  {
    "`" + s + "`"
  }

  /** A matching explicit source: "fr" translated to "en" gives just the tag and the text. */
  lemma ExampleNoWarning()
    ensures Format(map["fr" := "French", "en" := "English"], "fr", "en", Translation("Hello", "fr"), Backticks)
            == "`[ French >> English ]`    Hello"
  {
    var reg := map["fr" := "French", "en" := "English"];
    var n := Names(Some("French"), Some("French"), Some("English"));
    assert ResolveNames(reg, "fr", "en", "fr") == n;
    assert Body(n, "Hello", Backticks) == "`[ French >> English ]`    Hello";
  }

  /**
    A mismatching explicit source: Spanish requested, Italian detected. The
    reply opens with the warning, carries the usual tag and text, and closes
    with a line suggesting Italian (IT).
   */
  lemma ExampleWarning()
    ensures var reply := Format(map["es" := "Spanish", "it" := "Italian", "en" := "English"], "es", "en",
                                Translation("Hello", "it"), Backticks);
            var body := "`[ Spanish >> English ]`    Hello";
            var tail := Suggestion("Italian", "IT");
            && |reply| == |WarningPrefix| + |body| + |tail|
            && reply[..|WarningPrefix|] == WarningPrefix
            && reply[|WarningPrefix|..|WarningPrefix| + |body|] == body
            && reply[|reply| - |tail|..] == tail
  {
    var reg := map["es" := "Spanish", "it" := "Italian", "en" := "English"];
    var n := Names(Some("Spanish"), Some("Italian"), Some("English"));
    assert ResolveNames(reg, "es", "en", "it") == n;
    assert Mismatch(n);
    assert Body(n, "Hello", Backticks) == "`[ Spanish >> English ]`    Hello";
    var up := Upper("it");
    assert up[0] == 'I' && up[1] == 'T';
    assert up == "IT";
  }
}
