/** Theme resolution (`updateTheme`) and the indicator label (`updateThemeIndicator`)
    as pure functions of the stored mode, the hour and the body's class set. */
module Theme {

  /** The three class names `updateTheme` removes before writing. */
  const ThemeClassNames: set<string> := {"theme-day", "theme-night", "theme-auto"}

  /** The automatic rule: day from 06:00 up to, not including, 18:00. */
  predicate IsDaytime(hour: int) { 6 <= hour < 18 }

  /** `finalTheme`: the mode itself, except that 'auto' is resolved from the hour.
      Any other string, recognised or not, is kept verbatim. */
  function FinalTheme(mode: string, hour: int): string
  {
    if mode == "auto" then (if IsDaytime(hour) then "day" else "night") else mode
  }

  /** The ASCII whitespace a DOM class token may not contain. */
  predicate IsAsciiWhitespace(c: char)
  {
    c == ' ' || c == '\t' || c == '\n' || c == '\U{000C}' || c == '\r'
  }

  predicate HasWhitespace(s: string)
  {
    exists i | 0 <= i < |s| :: IsAsciiWhitespace(s[i])
  }

  /** `classList.add('theme-<finalTheme>')` throws when the token contains
      ASCII whitespace (the DOM's InvalidCharacterError). */
  predicate ThemeThrows(mode: string, hour: int)
  {
    HasWhitespace("theme-" + FinalTheme(mode, hour))
  }

  /** The class set after `updateTheme`: the three theme names removed, then
      `theme-auto` in auto mode, then `theme-<finalTheme>`; when that last add
      throws, the removal is all that happened. */
  function ThemeAfter(classes: set<string>, mode: string, hour: int): set<string>
  {
    if ThemeThrows(mode, hour) then classes - ThemeClassNames
    else
      (classes - ThemeClassNames)
      + (if mode == "auto" then {"theme-auto"} else {})
      + {"theme-" + FinalTheme(mode, hour)}
  }

  /** The rewrite throws exactly for a mode other than 'auto' that contains
      ASCII whitespace; the resolved 'day' and 'night' never do. */
  lemma ThemeThrowsIff(mode: string, hour: int)
    ensures ThemeThrows(mode, hour) <==> mode != "auto" && HasWhitespace(mode)
  {
    var t := "theme-" + FinalTheme(mode, hour);
    if mode == "auto" {
      assert t == "theme-day" || t == "theme-night";
      assert !HasWhitespace(t);
    } else {
      if HasWhitespace(mode) {
        var i :| 0 <= i < |mode| && IsAsciiWhitespace(mode[i]);
        assert t[6 + i] == mode[i];
      }
      if HasWhitespace(t) {
        var i :| 0 <= i < |t| && IsAsciiWhitespace(t[i]);
        assert i >= 6 && t[i] == mode[i - 6];
      }
    }
  }

  lemma ThemePrefixInjective(a: string, b: string)
    ensures "theme-" + a == "theme-" + b <==> a == b
  {
    if "theme-" + a == "theme-" + b {
      assert a == ("theme-" + a)[6..];
      assert b == ("theme-" + b)[6..];
    }
  }

  lemma NoThrowForRecognised(mode: string, hour: int)
    requires mode == "auto" || mode == "day" || mode == "night"
    ensures !ThemeThrows(mode, hour)
  {
    ThemeThrowsIff(mode, hour);
    assert !HasWhitespace("day") && !HasWhitespace("night");
  }

  /** With a recognised mode exactly one of `theme-day` and `theme-night` is set,
      and it is the one the mode resolves to. */
  lemma ThemeExclusive(classes: set<string>, mode: string, hour: int)
    requires mode == "auto" || mode == "day" || mode == "night"
    ensures var r := ThemeAfter(classes, mode, hour);
      ("theme-day" in r) != ("theme-night" in r)
      && ("theme-day" in r <==> FinalTheme(mode, hour) == "day")
  {
    var f := FinalTheme(mode, hour);
    NoThrowForRecognised(mode, hour);
    assert "theme-" + "day" == "theme-day" && "theme-" + "night" == "theme-night";
    ThemePrefixInjective(f, "day");
    ThemePrefixInjective(f, "night");
  }

  /** In auto mode the hour alone decides: day iff 6 <= hour < 18; the auto marker is set. */
  lemma AutoFollowsHour(classes: set<string>, hour: int)
    ensures var r := ThemeAfter(classes, "auto", hour);
      && ("theme-day" in r <==> IsDaytime(hour))
      && ("theme-night" in r <==> !IsDaytime(hour))
      && "theme-auto" in r
  {
    ThemeExclusive(classes, "auto", hour);
  }

  /** An explicit mode ignores the clock and sets its own class without the auto marker. */
  lemma ExplicitIgnoresHour(classes: set<string>, mode: string, h1: int, h2: int)
    requires mode == "day" || mode == "night"
    ensures ThemeAfter(classes, mode, h1) == ThemeAfter(classes, mode, h2)
    ensures var r := ThemeAfter(classes, mode, h1);
      && ("theme-" + mode) in r
      && "theme-auto" !in r
      && (mode == "day" <==> "theme-night" !in r)
  {
    ThemeExclusive(classes, mode, h1);
    ThemePrefixInjective(mode, "auto");
  }

  /** `theme-auto` is present afterwards iff the mode is 'auto'. */
  lemma AutoMarkerIff(classes: set<string>, mode: string, hour: int)
    ensures "theme-auto" in ThemeAfter(classes, mode, hour) <==> mode == "auto"
  {
    ThemePrefixInjective(FinalTheme(mode, hour), "auto");
    ThemeThrowsIff(mode, hour);
  }

  /** Only the three theme names and `theme-<mode>` can change; every other class,
      `custom-color` among them, is kept as it was. */
  lemma ThemeFrame(classes: set<string>, mode: string, hour: int, c: string)
    requires c !in ThemeClassNames && c != "theme-" + mode
    ensures c in ThemeAfter(classes, mode, hour) <==> c in classes
  {
    assert "theme-" + "day" == "theme-day" && "theme-" + "night" == "theme-night";
  }

  /** Rewriting twice with the same mode and hour is the same as rewriting once. */
  lemma ThemeIdempotent(classes: set<string>, mode: string, hour: int)
    ensures ThemeAfter(ThemeAfter(classes, mode, hour), mode, hour) == ThemeAfter(classes, mode, hour)
  {
    var once := ThemeAfter(classes, mode, hour);
    var twice := ThemeAfter(once, mode, hour);
    forall c ensures c in twice <==> c in once {
      if c !in ThemeClassNames && c != "theme-" + FinalTheme(mode, hour) {
        assert c in twice <==> c in once - ThemeClassNames;
      }
    }
  }

  /** An unrecognised mode is used verbatim: never the auto marker or an
      hour-derived class; `theme-<mode>` is added when it is a valid token, and
      when the mode holds whitespace the add throws after the removal. */
  lemma UnrecognisedModeVerbatim(classes: set<string>, mode: string, hour: int)
    requires mode != "auto" && mode != "day" && mode != "night"
    ensures var r := ThemeAfter(classes, mode, hour);
      && "theme-auto" !in r && "theme-day" !in r && "theme-night" !in r
      && (!HasWhitespace(mode) ==> ("theme-" + mode) in r)
      && (HasWhitespace(mode) ==> r == classes - ThemeClassNames)
  {
    ThemeThrowsIff(mode, hour);
    ThemePrefixInjective(mode, "auto");
    ThemePrefixInjective(mode, "day");
    ThemePrefixInjective(mode, "night");
  }

  /** "foo bar" removes the theme classes and adds nothing. */
  lemma WhitespaceModeThrows(classes: set<string>, hour: int)
    ensures ThemeThrows("foo bar", hour)
    ensures ThemeAfter(classes, "foo bar", hour) == classes - ThemeClassNames
  {
    assert ("theme-" + "foo bar")[9] == ' ';
  }

  /** A class written for an earlier unrecognised mode is not removed by a later
      rewrite, so the set is not reduced to the resolved theme alone. */
  lemma StaleUnrecognisedClassSurvives(hour: int)
    ensures ThemeAfter(ThemeAfter({}, "foo", hour), "day", hour) == {"theme-foo", "theme-day"}
  {
    assert "theme-" + "foo" == "theme-foo";
    assert "theme-" + "day" == "theme-day";
    assert "theme-foo" !in ThemeClassNames;
    assert !HasWhitespace("foo") && !HasWhitespace("day");
    ThemeThrowsIff("foo", hour);
    ThemeThrowsIff("day", hour);
  }

  const DayWord: string := "白天"
  const NightWord: string := "夜晚"
  const AutoWord: string := "自动"

  /** The text `updateThemeIndicator` writes for a mode at an hour. */
  function IndicatorLabel(mode: string, hour: int): string
  {
    if mode == "auto" then AutoWord + " (" + (if IsDaytime(hour) then DayWord else NightWord) + ")"
    else if mode == "day" then DayWord
    else if mode == "night" then NightWord
    else AutoWord
  }

  /** For a recognised mode the label names the same half of the day as the
      class set `updateTheme` writes for that mode and hour, qualified by
      'auto' exactly in auto mode. */
  lemma IndicatorAgreesWithTheme(classes: set<string>, mode: string, hour: int)
    requires mode == "auto" || mode == "day" || mode == "night"
    ensures var r := ThemeAfter(classes, mode, hour);
      var word := if "theme-day" in r then DayWord else NightWord;
      IndicatorLabel(mode, hour) == if "theme-auto" in r then AutoWord + " (" + word + ")" else word
  {
    ThemeExclusive(classes, mode, hour);
    AutoMarkerIff(classes, mode, hour);
  }

  /** For an unrecognised mode the label falls back to 'auto' although the class
      set carries neither the auto marker nor a day or night class. */
  lemma UnrecognisedIndicatorSaysAuto(classes: set<string>, mode: string, hour: int)
    requires mode != "auto" && mode != "day" && mode != "night"
    ensures IndicatorLabel(mode, hour) == AutoWord
    ensures var r := ThemeAfter(classes, mode, hour);
      "theme-auto" !in r && "theme-day" !in r && "theme-night" !in r
  {
    UnrecognisedModeVerbatim(classes, mode, hour);
  }
}
