/** The page state of the wallpaper script: the global mode, the body's class
    list, the `--custom-color` property and the three text regions, with one
    method per update function. A region is None while its element is absent. */
module WallpaperState {
  import opened Options
  import opened Strings
  import opened Theme
  import opened ColorScheme
  import opened Clock

  /** A property event from the host: property name to its `value`. */
  type Properties = map<string, string>

  /** The mode after a property event: a `forcetheme` value replaces it verbatim. */
  function ModeAfterIntake(mode: string, props: Properties): string
  {
    if "forcetheme" in props then props["forcetheme"] else mode
  }

  /** A `forcetheme` value whose theme token the DOM rejects makes the event
      handler throw, so the rest of the event is not processed. */
  predicate IntakeThrows(props: Properties, hour: int)
  {
    "forcetheme" in props && ThemeThrows(props["forcetheme"], hour)
  }

  /** The class set after a property event: first the theme rewrite for a
      `forcetheme` entry, then, unless that threw, the colour toggle for a
      `schemecolor` entry. */
  function ClassesAfterIntake(classes: set<string>, props: Properties, hour: int): set<string>
  {
    var themed := if "forcetheme" in props then ThemeAfter(classes, props["forcetheme"], hour) else classes;
    if "schemecolor" in props && !IntakeThrows(props, hour)
    then ColorClassesAfter(themed, ParseColor(props["schemecolor"]))
    else themed
  }

  /** The colour property after a property event. */
  function ColorPropAfterIntake(prop: string, props: Properties, hour: int): string
  {
    if "schemecolor" in props && !IntakeThrows(props, hour)
    then RgbText(ParseColor(props["schemecolor"]))
    else prop
  }

  /** The theme rewrite and the colour toggle touch disjoint classes, so when
      both run their order does not change the classes. When the theme add
      throws, the order decides whether the colour runs at all
      (`IntakeStopsOnInvalidTheme`, `ColorBeforeThrowWouldSurvive`). */
  lemma ThemeAndColorCommute(classes: set<string>, mode: string, hour: int, c: Rgb)
    ensures ColorClassesAfter(ThemeAfter(classes, mode, hour), c)
         == ThemeAfter(ColorClassesAfter(classes, c), mode, hour)
  {
    var t := "theme-" + FinalTheme(mode, hour);
    assert t != CustomColorClass by {
      assert t[0] == 't' && CustomColorClass[0] == 'c';
    }
    assert CustomColorClass !in ThemeClassNames;
  }

  /** A `forcetheme` event leaves exactly the theme `updateTheme` writes for the
      new mode, and an event with neither key changes nothing. */
  lemma IntakeForcesTheme(classes: set<string>, props: Properties, hour: int)
    ensures "forcetheme" in props && "schemecolor" !in props ==>
      ClassesAfterIntake(classes, props, hour) == ThemeAfter(classes, props["forcetheme"], hour)
    ensures "forcetheme" in props ==>
      var r := ClassesAfterIntake(classes, props, hour);
      && ("theme-auto" in r <==> props["forcetheme"] == "auto")
      && (props["forcetheme"] == "auto" ==> ("theme-day" in r <==> IsDaytime(hour)))
    ensures "forcetheme" !in props && "schemecolor" !in props ==>
      ClassesAfterIntake(classes, props, hour) == classes
  {
    if "forcetheme" in props {
      var mode := props["forcetheme"];
      var themed := ThemeAfter(classes, mode, hour);
      AutoMarkerIff(classes, mode, hour);
      AutoFollowsHour(classes, hour);
      if "schemecolor" in props && !IntakeThrows(props, hour) {
        var c := ParseColor(props["schemecolor"]);
        CustomClassIff(themed, c);
        assert "theme-auto" != CustomColorClass && "theme-day" != CustomColorClass;
      }
    }
  }

  /** A `forcetheme` value with whitespace (other than 'auto') aborts the event:
      the theme classes are removed, and a `schemecolor` entry in the same
      event is neither written nor toggled. */
  lemma IntakeStopsOnInvalidTheme(classes: set<string>, prop: string, props: Properties, hour: int)
    requires "forcetheme" in props && props["forcetheme"] != "auto" && HasWhitespace(props["forcetheme"])
    ensures IntakeThrows(props, hour)
    ensures ClassesAfterIntake(classes, props, hour) == classes - ThemeClassNames
    ensures ColorPropAfterIntake(prop, props, hour) == prop
  {
    ThemeThrowsIff(props["forcetheme"], hour);
  }

  /** Why the handler's order matters: had the colour run before a theme value
      that throws, `custom-color` would survive the throw, whereas the handler
      as written (theme first) never adds it. */
  lemma ColorBeforeThrowWouldSurvive()
    ensures CustomColorClass in ThemeAfter(ColorClassesAfter({}, ParseColor("10 20 30")), "a b", 12)
    ensures CustomColorClass !in
      ClassesAfterIntake({}, map["forcetheme" := "a b", "schemecolor" := "10 20 30"], 12)
  {
    var props := map["forcetheme" := "a b", "schemecolor" := "10 20 30"];
    assert CustomColorClass !in ClassesAfterIntake({}, props, 12) by {
      assert props["forcetheme"] == "a b";
      assert IsAsciiWhitespace("a b"[1]);
      IntakeStopsOnInvalidTheme({}, "", props, 12);
      assert CustomColorClass !in ThemeClassNames;
    }
    var colored := ColorClassesAfter({}, ParseColor("10 20 30"));
    assert CustomColorClass in ThemeAfter(colored, "a b", 12) by {
      DarkIsCustom({});
      assert IsAsciiWhitespace("a b"[1]);
      ThemeThrowsIff("a b", 12);
      assert ThemeAfter(colored, "a b", 12) == colored - ThemeClassNames;
      assert CustomColorClass !in ThemeClassNames;
    }
  }

  class Wallpaper {
    var mode: string
    var bodyClasses: set<string>
    var customColorProp: string
    var timeRegion: Option<string>
    var dateRegion: Option<string>
    var indicatorRegion: Option<string>
    var currentTime: Instant

    /** The state at script load: mode 'auto', the page's classes, no colour
        property and no text regions yet. */
    constructor (now: Instant, classes: set<string>)
      ensures mode == "auto" && bodyClasses == classes && customColorProp == ""
      ensures timeRegion == None && dateRegion == None && indicatorRegion == None
      ensures currentTime == now
    {
      mode := "auto";
      bodyClasses := classes;
      customColorProp := "";
      timeRegion, dateRegion, indicatorRegion := None, None, None;
      currentTime := now;
    }

    /** `updateTheme`: remove the three theme classes, add `theme-auto` in auto
        mode, then add `theme-<finalTheme>`; `ok` is false when that last add
        throws because the token contains whitespace. */
    method UpdateTheme(hour: int) returns (ok: bool)
      modifies this`bodyClasses
      ensures ok == !ThemeThrows(mode, hour)
      ensures bodyClasses == ThemeAfter(old(bodyClasses), mode, hour)
    {
      bodyClasses := bodyClasses - {"theme-day", "theme-night", "theme-auto"};
      var finalTheme := mode;
      if mode == "auto" {
        finalTheme := if IsDaytime(hour) then "day" else "night";
        bodyClasses := bodyClasses + {"theme-auto"};
      }
      var token := "theme-" + finalTheme;
      if HasWhitespace(token) {
        return false;
      }
      bodyClasses := bodyClasses + {token};
      ok := true;
    }

    /** `updateColorScheme`: write `rgb(r, g, b)` from the parsed fields and
        toggle `custom-color`. */
    method UpdateColorScheme(colorString: string)
      modifies this`bodyClasses, this`customColorProp
      ensures customColorProp == RgbText(ParseColor(colorString))
      ensures bodyClasses == ColorClassesAfter(old(bodyClasses), ParseColor(colorString))
    {
      var rgb := Split(colorString, ' ');
      var r := Field(rgb, 0);
      var g := Field(rgb, 1);
      var b := Field(rgb, 2);
      customColorProp := RgbText(Rgb(r, g, b));
      if r != Some(255) || g != Some(255) || b != Some(255) {
        bodyClasses := bodyClasses + {CustomColorClass};
      } else {
        bodyClasses := bodyClasses - {CustomColorClass};
      }
    }

    /** `updateTime`: record the instant, rewrite the time and date regions that
        exist, and re-resolve the theme on the exact hour in auto mode. */
    method UpdateTime(now: Instant)
      requires now.weekday < 7
      modifies this`currentTime, this`timeRegion, this`dateRegion, this`bodyClasses
      ensures currentTime == now
      ensures timeRegion == if old(timeRegion).Some? then Some(TimeText(now.hour, now.minute, now.second)) else None
      ensures dateRegion == if old(dateRegion).Some? then Some(DateText(now.year, now.month, now.day, now.weekday)) else None
      ensures bodyClasses == TickClasses(old(bodyClasses), mode, now)
    {
      currentTime := now;
      if timeRegion.Some? {
        timeRegion := Some(TimeText(now.hour, now.minute, now.second));
      }
      if dateRegion.Some? {
        dateRegion := Some(DateText(now.year, now.month, now.day, now.weekday));
      }
      if mode == "auto" && now.minute == 0 && now.second == 0 {
        ThemeThrowsIff(mode, now.hour);
        var _ := UpdateTheme(now.hour);
      }
    }

    /** `updateThemeIndicator`: write the label for the mode and hour, if the
        indicator exists. */
    method UpdateThemeIndicator(hour: int)
      modifies this`indicatorRegion
      ensures indicatorRegion == if old(indicatorRegion).Some? then Some(IndicatorLabel(mode, hour)) else None
    {
      if indicatorRegion.Some? {
        var displayText := "";
        if mode == "auto" {
          var autoTheme := if IsDaytime(hour) then DayWord else NightWord;
          displayText := AutoWord + " (" + autoTheme + ")";
        } else if mode == "day" {
          displayText := DayWord;
        } else if mode == "night" {
          displayText := NightWord;
        } else {
          displayText := AutoWord;
        }
        indicatorRegion := Some(displayText);
      }
    }

    /** `applyUserProperties`: a `forcetheme` entry sets the mode and rewrites the
        theme; then a `schemecolor` entry applies the colour. `ok` is false when
        the theme rewrite threw, which ends the handler before the colour. */
    method ApplyUserProperties(props: Properties, hour: int) returns (ok: bool)
      modifies this`mode, this`bodyClasses, this`customColorProp
      ensures ok == !IntakeThrows(props, hour)
      ensures mode == ModeAfterIntake(old(mode), props)
      ensures bodyClasses == ClassesAfterIntake(old(bodyClasses), props, hour)
      ensures customColorProp == ColorPropAfterIntake(old(customColorProp), props, hour)
    {
      if "forcetheme" in props {
        mode := props["forcetheme"];
        ok := UpdateTheme(hour);
        if !ok {
          return;
        }
      }
      if "schemecolor" in props {
        var color := props["schemecolor"];
        UpdateColorScheme(color);
      }
      ok := true;
    }

    /** The first paint after the template is in place: the regions exist and
        hold the resolved theme, the time, the date and the label for `now`.
        When the theme rewrite throws, the pass stops there and the regions
        keep the template's placeholders. */
    method InitializePage(now: Instant) returns (ok: bool)
      requires now.weekday < 7
      modifies this`currentTime, this`timeRegion, this`dateRegion, this`indicatorRegion, this`bodyClasses
      ensures ok == !ThemeThrows(mode, now.hour)
      ensures bodyClasses == ThemeAfter(old(bodyClasses), mode, now.hour)
      ensures ok ==> currentTime == now
      ensures ok ==> timeRegion == Some(TimeText(now.hour, now.minute, now.second))
      ensures ok ==> dateRegion == Some(DateText(now.year, now.month, now.day, now.weekday))
      ensures ok ==> indicatorRegion == Some(IndicatorLabel(mode, now.hour))
      ensures !ok ==> currentTime == old(currentTime)
      ensures !ok ==> timeRegion == Some("00:00:00") && dateRegion == Some("Loading...")
      ensures !ok ==> indicatorRegion == Some(AutoWord)
    {
      timeRegion := Some("00:00:00");
      dateRegion := Some("Loading...");
      indicatorRegion := Some(AutoWord);
      ok := UpdateTheme(now.hour);
      if !ok {
        return;
      }
      TickAfterResolveIsStable(old(bodyClasses), mode, now);
      UpdateTime(now);
      UpdateThemeIndicator(now.hour);
    }
  }

  /** The scenario of the hourly edge: start-up at 12:30 in auto mode sets the
      day theme, a tick at 00:00:00 resolves night, the tick at 00:00:01 changes
      no class, and a forced 'night' then labels the indicator 夜晚 at any hour. */
  method EdgeScenario()
  {
    var start := Instant(12, 30, 0, 2024, 2, 5, 2);
    var w := new Wallpaper(start, {});
    var ok := w.InitializePage(start);
    NoThrowForRecognised("auto", 12);
    AutoFollowsHour({}, 12);
    assert "theme-day" in w.bodyClasses;
    w.UpdateTime(Instant(0, 0, 0, 2024, 2, 6, 3));
    AutoFollowsHour(ThemeAfter({}, "auto", 12), 0);
    assert "theme-night" in w.bodyClasses && "theme-day" !in w.bodyClasses;
    var before := w.bodyClasses;
    w.UpdateTime(Instant(0, 0, 1, 2024, 2, 6, 3));
    assert w.bodyClasses == before;
    NoThrowForRecognised("night", 0);
    ok := w.ApplyUserProperties(map["forcetheme" := "night"], 0);
    w.UpdateThemeIndicator(10);
    assert w.indicatorRegion == Some(NightWord);
  }
}
