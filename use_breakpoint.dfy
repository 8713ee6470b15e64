/** The breakpoint hook: resolves a breakpoint name to its CSS width threshold, turns that
    threshold into a pixel number, names the `isAbove<Key>`/`isBelow<Key>` flags, and keeps
    a `matches` cell in step with a min-width media query through a change listener. */
module UseBreakpoint {
  import opened Wrappers

  /** Breakpoint name to CSS length, e.g. "md" to "768px". */
  type Table = map<string, string>

  /** The table used when the styling configuration provides no screens. */
  const DefaultScreens: Table := map[
    "xs" := "480px",
    "sm" := "640px",
    "md" := "768px",
    "lg" := "1024px",
    "xl" := "1280px",
    "2xl" := "1536px"
  ]

  /** `screens || default`: the configured table when there is one, whole; else the default
      table, which has exactly the six names xs, sm, md, lg, xl and 2xl. */
  function Breakpoints(screens: Option<Table>): (t: Table)
    ensures screens.Some? ==> t == screens.value
    ensures screens.None? ==> t.Keys == {"xs", "sm", "md", "lg", "xl", "2xl"}
  {
    match screens
    case Some(table) => table
    case None => DefaultScreens
  }

  /** `breakpoints[key]`: the threshold string, or `undefined` for a name not in the table. */
  function Threshold(table: Table, key: string): (v: Option<string>)
    ensures v.None? <==> key !in table
    ensures v.Some? ==> v.value == table[key]
  {
    if key in table then Some(table[key]) else None
  }

  /** The configured table replaces the default as a whole: a name it lacks is missing even
      when the default table has it. */
  lemma ConfiguredTableReplacesDefault(table: Table, key: string)
    ensures key in table ==> Threshold(Breakpoints(Some(table)), key) == Some(table[key])
    ensures key !in table ==> Threshold(Breakpoints(Some(table)), key).None?
    ensures Threshold(Breakpoints(Some(map[])), "md").None? && Threshold(Breakpoints(None), "md") == Some("768px")
  {
  }

  // ---------------------------------------------------------------------------
  // Pixel value: Number(String(value).replace(/[^0-9]/g, ""))
  // ---------------------------------------------------------------------------

  /** `String(value)`: a missing threshold prints as "undefined". */
  function JsString(value: Option<string>): string
  {
    match value
    case Some(s) => s
    case None => "undefined"
  }

  predicate IsDigit(c: char)
  {
    '0' <= c <= '9'
  }

  predicate AllDigits(s: string)
  {
    forall i :: 0 <= i < |s| ==> IsDigit(s[i])
  }

  /** The string with every character other than 0-9 removed. */
  function StripNonDigits(s: string): (r: string)
    ensures |r| <= |s|
    ensures AllDigits(r)
  {
    if s == [] then [] else (if IsDigit(s[0]) then [s[0]] else []) + StripNonDigits(s[1..])
  }

  /** Every digit of the input survives as often as it occurs, and nothing else does. */
  lemma {:induction false} StripNonDigitsCounts(s: string)
    ensures forall c :: multiset(StripNonDigits(s))[c] == if IsDigit(c) then multiset(s)[c] else 0
  {
    if s != [] {
      assert s == [s[0]] + s[1..];
      StripNonDigitsCounts(s[1..]);
    }
  }

  /** Stripping works piecewise, so the digits that remain keep their order. */
  lemma {:induction false} StripNonDigitsAppend(a: string, b: string)
    ensures StripNonDigits(a + b) == StripNonDigits(a) + StripNonDigits(b)
  {
    if a != [] {
      assert (a + b)[0] == a[0] && (a + b)[1..] == a[1..] + b;
      StripNonDigitsAppend(a[1..], b);
    } else {
      assert a + b == b;
    }
  }

  /** A string of digits only is left as it is. */
  lemma {:induction false} StripNonDigitsKeepsDigits(s: string)
    requires AllDigits(s)
    ensures StripNonDigits(s) == s
  {
    if s != [] {
      StripNonDigitsKeepsDigits(s[1..]);
    }
  }

  /** A string without digits strips to the empty string. */
  lemma {:induction false} StripNonDigitsDropsText(s: string)
    requires forall i :: 0 <= i < |s| ==> !IsDigit(s[i])
    ensures StripNonDigits(s) == []
  {
    if s != [] {
      StripNonDigitsDropsText(s[1..]);
    }
  }

  function DigitValue(c: char): nat
    requires IsDigit(c)
  {
    (c as int) - ('0' as int)
  }

  function DigitChar(d: nat): char
    requires d < 10
  {
    ('0' as int + d) as char
  }

  /** `Number(ds)` for a string of decimal digits; `Number("")` is 0. */
  function DecimalValue(ds: string): nat
    requires AllDigits(ds)
  {
    if ds == [] then 0 else DecimalValue(ds[..|ds| - 1]) * 10 + DigitValue(ds[|ds| - 1])
  }

  /** The decimal numeral of `n`, without leading zeros. */
  function DecimalString(n: nat): (s: string)
    ensures |s| >= 1 && AllDigits(s)
  {
    if n < 10 then [DigitChar(n)] else DecimalString(n / 10) + [DigitChar(n % 10)]
  }

  lemma {:induction false} DecimalRoundTrip(n: nat)
    ensures DecimalValue(DecimalString(n)) == n
  {
    if n >= 10 {
      var s := DecimalString(n);
      assert s[..|s| - 1] == DecimalString(n / 10);
      DecimalRoundTrip(n / 10);
    }
  }

  /** The pixel number the hook returns under the breakpoint's own name. */
  function PixelValue(value: Option<string>): (px: nat)
    ensures value.None? ==> px == 0
    ensures StripNonDigits(JsString(value)) == [] ==> px == 0
  {
    var digits := StripNonDigits(JsString(value));
    assert value.None? ==> digits == [] by {
      if value.None? {
        StripNonDigitsDropsText("undefined");
      }
    }
    DecimalValue(digits)
  }

  /** A threshold written as a number followed by a unit without digits reads back as that number. */
  lemma PixelValueOfLength(n: nat, unit: string)
    requires forall i :: 0 <= i < |unit| ==> !IsDigit(unit[i])
    ensures PixelValue(Some(DecimalString(n) + unit)) == n
  {
    StripNonDigitsAppend(DecimalString(n), unit);
    StripNonDigitsKeepsDigits(DecimalString(n));
    StripNonDigitsDropsText(unit);
    assert StripNonDigits(DecimalString(n) + unit) == DecimalString(n);
    DecimalRoundTrip(n);
  }

  /** A threshold without digits, and a missing one ("undefined"), give 0. */
  lemma PixelValueWithoutDigits(value: Option<string>)
    requires forall i :: 0 <= i < |JsString(value)| ==> !IsDigit(JsString(value)[i])
    ensures PixelValue(value) == 0
  {
    StripNonDigitsDropsText(JsString(value));
  }

  /** "768px" gives 768; "1.5rem" keeps both digits and gives 15, not 1.5. */
  lemma PixelValueExamples()
    ensures PixelValue(Some("768px")) == 768
    ensures PixelValue(Some("1.5rem")) == 15
  {
    Px768();
    StripNonDigitsAppend("1", ".5rem");
    StripNonDigitsAppend(".", "5rem");
    StripNonDigitsAppend("5", "rem");
    StripNonDigitsDropsText("rem");
    assert "1.5rem" == "1" + ".5rem" && ".5rem" == "." + "5rem" && "5rem" == "5" + "rem";
    assert StripNonDigits("1.5rem") == "15";
    assert "15"[..1] == "1";
  }

  // One lemma per entry of the default table: proving all six numerals in one lemma
  // together with the table lookups exceeds the solver's resource limit.

  lemma Px480()
    ensures PixelValue(Some("480px")) == 480
  {
    assert DecimalString(4) == "4" && DecimalString(48) == "48" && DecimalString(480) == "480";
    PixelValueOfLength(480, "px");
    assert DecimalString(480) + "px" == "480px";
  }

  lemma Px640()
    ensures PixelValue(Some("640px")) == 640
  {
    assert DecimalString(6) == "6" && DecimalString(64) == "64" && DecimalString(640) == "640";
    PixelValueOfLength(640, "px");
    assert DecimalString(640) + "px" == "640px";
  }

  lemma Px768()
    ensures PixelValue(Some("768px")) == 768
  {
    assert DecimalString(7) == "7" && DecimalString(76) == "76" && DecimalString(768) == "768";
    PixelValueOfLength(768, "px");
    assert DecimalString(768) + "px" == "768px";
  }

  lemma Px1024()
    ensures PixelValue(Some("1024px")) == 1024
  {
    assert DecimalString(1) == "1" && DecimalString(10) == "10" && DecimalString(102) == "102";
    assert DecimalString(1024) == "1024";
    PixelValueOfLength(1024, "px");
    assert DecimalString(1024) + "px" == "1024px";
  }

  lemma Px1280()
    ensures PixelValue(Some("1280px")) == 1280
  {
    assert DecimalString(1) == "1" && DecimalString(12) == "12" && DecimalString(128) == "128";
    assert DecimalString(1280) == "1280";
    PixelValueOfLength(1280, "px");
    assert DecimalString(1280) + "px" == "1280px";
  }

  lemma Px1536()
    ensures PixelValue(Some("1536px")) == 1536
  {
    assert DecimalString(1) == "1" && DecimalString(15) == "15" && DecimalString(153) == "153";
    assert DecimalString(1536) == "1536";
    PixelValueOfLength(1536, "px");
    assert DecimalString(1536) + "px" == "1536px";
  }

  /** Every entry of the default table reads back as its pixel width. */
  lemma DefaultTablePixels()
    ensures PixelValue(Threshold(Breakpoints(None), "xs")) == 480
    ensures PixelValue(Threshold(Breakpoints(None), "sm")) == 640
    ensures PixelValue(Threshold(Breakpoints(None), "md")) == 768
    ensures PixelValue(Threshold(Breakpoints(None), "lg")) == 1024
    ensures PixelValue(Threshold(Breakpoints(None), "xl")) == 1280
    ensures PixelValue(Threshold(Breakpoints(None), "2xl")) == 1536
  {
    assert Breakpoints(None) == DefaultScreens;
    assert Threshold(DefaultScreens, "xs") == Some("480px");
    assert Threshold(DefaultScreens, "sm") == Some("640px");
    assert Threshold(DefaultScreens, "md") == Some("768px");
    assert Threshold(DefaultScreens, "lg") == Some("1024px");
    assert Threshold(DefaultScreens, "xl") == Some("1280px");
    assert Threshold(DefaultScreens, "2xl") == Some("1536px");
    Px480();
    Px640();
    Px768();
    Px1024();
    Px1280();
    Px1536();
  }

  // ---------------------------------------------------------------------------
  // Flag names and the returned record
  // ---------------------------------------------------------------------------

  /** `breakpointKey[0]` is undefined for the empty key, and calling toUpperCase on it throws. */
  datatype RenderError = TypeError

  /** `toUpperCase` on one character, for the ASCII letters. */
  function UpperCase(c: char): char
  {
    if 'a' <= c <= 'z' then (c as int - 32) as char else c
  }

  /** The key with its first character upper-cased and the rest untouched. */
  function Capitalize(key: string): (r: Result<string, RenderError>)
    ensures r.Failure? <==> key == []
    ensures r.Success? ==> |r.value| == |key| && r.value[0] == UpperCase(key[0])
    ensures r.Success? ==> forall i :: 1 <= i < |key| ==> r.value[i] == key[i]
  {
    if key == [] then Failure(TypeError) else Success([UpperCase(key[0])] + key[1..])
  }

  /** The object the hook returns: `{[key]: pixels, [aboveName]: isAbove, [belowName]: isBelow}`. */
  datatype BreakpointFlags = BreakpointFlags(
    key: string, pixels: nat,
    aboveName: string, isAbove: bool,
    belowName: string, isBelow: bool)

  /** One render of the hook for `key` with the current `matches`. */
  function HookResult(table: Table, key: string, matches: bool): (r: Result<BreakpointFlags, RenderError>)
    ensures r.Failure? <==> key == []
    ensures r.Success? ==> r.value.key == key && r.value.pixels == PixelValue(Threshold(table, key))
    ensures r.Success? ==> r.value.isAbove == matches && r.value.isBelow == !r.value.isAbove
  {
    match Capitalize(key)
    case Failure(e) => Failure(e)
    case Success(capitalized) =>
      Success(BreakpointFlags(
        key, PixelValue(Threshold(table, key)),
        "isAbove" + capitalized, matches,
        "isBelow" + capitalized, !matches))
  }

  /** The names are the prefixes followed by the key with only its first character
      upper-cased; the three property names never clash, so no value overwrites another. */
  lemma FlagNames(table: Table, key: string, matches: bool)
    requires key != []
    ensures var f := HookResult(table, key, matches).value;
      && f.aboveName[..7] == "isAbove" && f.belowName[..7] == "isBelow"
      && |f.aboveName| == |f.belowName| == |key| + 7
      && f.aboveName[7] == UpperCase(key[0]) && f.aboveName[8..] == key[1..]
      && f.belowName[7..] == f.aboveName[7..]
      && f.key != f.aboveName && f.key != f.belowName && f.aboveName != f.belowName
  {
  }

  /** "2xl" gives `isAbove2xl`: the digit has no upper case, so the `isAbove2Xl`
      written in the hook's usage comment is never produced. */
  lemma TwoXlFlagName(table: Table, matches: bool)
    ensures HookResult(table, "2xl", matches).value.aboveName == "isAbove2xl"
    ensures HookResult(table, "2xl", matches).value.aboveName != "isAbove2Xl"
    ensures HookResult(table, "2xl", matches).value.belowName == "isBelow2xl"
  {
  }

  /** A missing name yields 0 pixels, and `false`/`true` as long as `matches` is at its start value. */
  lemma MissingKeyResult(table: Table, key: string)
    requires key != [] && key !in table
    ensures HookResult(table, key, false).value.pixels == 0
    ensures !HookResult(table, key, false).value.isAbove && HookResult(table, key, false).value.isBelow
  {
  }

  // ---------------------------------------------------------------------------
  // The hook instance: the `matches` cell and its media-query listener
  // ---------------------------------------------------------------------------

  /** A change handler added to the media query list of `query`. */
  datatype ChangeListener = ChangeListener(id: nat, query: string)

  /** The media condition the effect queries. */
  function MediaQuery(threshold: string): (q: string)
    ensures |q| == |threshold| + 13
    ensures q[..12] == "(min-width: " && q[12..|q| - 1] == threshold && q[|q| - 1] == ')'
  {
    "(min-width: " + threshold + ")"
  }

  /** Distinct thresholds give distinct media queries, so a change of one threshold's query
      never reaches a handler added for another. */
  lemma MediaQueryInjective(a: string, b: string)
    requires MediaQuery(a) == MediaQuery(b)
    ensures a == b
  {
  }

  /** `!breakpointValue` is false: the threshold exists and is not the empty string. */
  predicate Truthy(value: Option<string>)
    ensures !Truthy(value) <==> value == None || value == Some("")
  {
    value.Some? && value.value != ""
  }

  /** One component's use of the hook. The browser's evaluation of the media query comes
      in as the boolean `currentlyMatches` each time the effect runs. */
  class BreakpointHook {
    const table: Table
    var key: string
    var matches: bool
    /** The handler the current effect run added, if it added one. */
    var handler: Option<ChangeListener>
    /** The change listeners this hook has registered with the browser. */
    var listeners: set<ChangeListener>
    var nextId: nat
    var mounted: bool

    /** `breakpointValue`, the effect's only dependency. */
    function Value(): Option<string>
      reads this
    {
      Threshold(table, key)
    }

    ghost predicate Valid()
      reads this
    {
      && listeners == (if handler.Some? then {handler.value} else {})
      && (handler.Some? <==> mounted && Truthy(Value()))
      && (handler.Some? ==> handler.value.id < nextId && handler.value.query == MediaQuery(Value().value))
    }

    /** The value the hook returns on a render with the current state. */
    function Flags(): Result<BreakpointFlags, RenderError>
      reads this
    {
      HookResult(table, key, matches)
    }

    /** First render and its effect. A render with the empty key throws before it is
        committed, so no effect runs for it. */
    constructor (table: Table, key: string, currentlyMatches: bool)
      ensures Valid()
      ensures this.table == table && this.key == key
      ensures mounted <==> key != []
      ensures matches <==> key != [] && Truthy(Threshold(table, key)) && currentlyMatches
      ensures |listeners| == if key != [] && Truthy(Threshold(table, key)) then 1 else 0
    {
      this.table := table;
      this.key := key;
      matches := false;
      mounted := key != [];
      handler := None;
      listeners := {};
      nextId := 0;
      new;
      if mounted && Truthy(Value()) {
        Subscribe(currentlyMatches);
      }
    }

    /** The effect body for a truthy threshold: read the query, then listen for changes. */
    method Subscribe(currentlyMatches: bool)
      requires mounted && Truthy(Value()) && handler.None? && listeners == {}
      modifies this
      ensures Valid()
      ensures key == old(key) && mounted == old(mounted)
      ensures matches == currentlyMatches && handler == Some(ChangeListener(old(nextId), MediaQuery(old(Value()).value)))
      ensures nextId == old(nextId) + 1
    {
      matches := currentlyMatches;
      var h := ChangeListener(nextId, MediaQuery(Value().value));
      listeners := listeners + {h};
      handler := Some(h);
      nextId := nextId + 1;
    }

    /** The browser reports a change of the media query `query`. */
    method Change(query: string, nowMatches: bool)
      requires Valid()
      modifies this`matches
      ensures Valid()
      ensures (exists l :: l in listeners && l.query == query) ==> matches == nowMatches
      ensures !(exists l :: l in listeners && l.query == query) ==> matches == old(matches)
    {
      if handler.Some? && handler.value.query == query {
        matches := nowMatches;
      }
    }

    /** A re-render with a (possibly) new key; the effect re-runs when the threshold changed. */
    method Rerender(newKey: string, currentlyMatches: bool)
      requires Valid() && mounted
      modifies this
      ensures Valid() && mounted
      ensures newKey == [] ==> key == old(key) && matches == old(matches) && handler == old(handler)
      ensures newKey != [] ==> key == newKey
      ensures Value() == old(Value()) ==> matches == old(matches) && handler == old(handler)
      ensures newKey != [] && Value() != old(Value()) ==>
                && (old(handler).Some? ==> old(handler).value !in listeners)
                && (Truthy(Value()) ==> matches == currentlyMatches && handler.value.id >= old(nextId))
                && (!Truthy(Value()) ==> matches == old(matches) && listeners == {})
    {
      if newKey != [] {
        if Threshold(table, newKey) != Value() {
          // the cleanup removes exactly the handler the previous run added
          if handler.Some? {
            listeners := listeners - {handler.value};
          }
          handler := None;
          key := newKey;
          if Truthy(Value()) {
            Subscribe(currentlyMatches);
          }
        } else {
          key := newKey;
        }
      }
    }

    /** Teardown: the last effect's cleanup runs. */
    method Unmount()
      requires Valid() && mounted
      modifies this
      ensures Valid() && !mounted
      ensures listeners == {} && matches == old(matches)
      ensures old(handler).Some? ==> old(handler).value !in listeners
    {
      if handler.Some? {
        listeners := listeners - {handler.value};
      }
      handler := None;
      mounted := false;
    }
  }

  /** A name missing from the table: no listener, and `matches` keeps its initial false
      whatever the browser reports. */
  method MissingKeyScenario(currentlyMatches: bool)
  {
    var hook := new BreakpointHook(DefaultScreens, "3xl", currentlyMatches);
    assert hook.listeners == {} && !hook.matches;
    hook.Change(MediaQuery("1536px"), true);
    assert !hook.matches;
    assert hook.Flags().Success? && !hook.Flags().value.isAbove && hook.Flags().value.isBelow;
    hook.Unmount();
    assert hook.listeners == {};
  }
}
