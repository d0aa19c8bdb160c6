/** Routing predicates of the host: level hierarchy, capabilities, noise filter and overload guard. */
module Routing {
  import opened Common

  // ASCII lower-casing; the host calls `toString().toLowerCase()`.
  function LowerChar(c: char): char {
    if 'A' <= c <= 'Z' then (c as int + 32) as char else c
  }

  function Lower(s: string): string {
    seq(|s|, i requires 0 <= i < |s| => LowerChar(s[i]))
  }

  function LowerAll(xs: seq<string>): seq<string> {
    seq(|xs|, i requires 0 <= i < |xs| => Lower(xs[i]))
  }

  const LEVEL_ORDER := ["errors", "warn", "info", "trace"]

  /** Array.prototype.indexOf: the first position of `x`, or -1. */
  function IndexOf(order: seq<string>, x: string): (r: int)
    ensures -1 <= r < |order|
    ensures r >= 0 ==> order[r] == x
    ensures r == -1 <==> x !in order
    ensures forall j :: 0 <= j < r ==> order[j] != x
  {
    if order == [] then -1
    else if order[0] == x then 0
    else
      var rest := IndexOf(order[1..], x);
      if rest == -1 then -1 else rest + 1
  }

  function SubscriptionLevel(logLevel: string): (r: string)
    ensures r in LEVEL_ORDER
  {
    var lvl := Lower(logLevel);
    if lvl == "error" then assert LEVEL_ORDER[0] == "errors"; "errors"
    else if lvl == "warn" then assert LEVEL_ORDER[1] == "warn"; "warn"
    else if lvl == "debug" then assert LEVEL_ORDER[3] == "trace"; "trace"
    else assert LEVEL_ORDER[2] == "info"; "info"
  }

  /** Position of an event's log level in the hierarchy: 0 for errors up to 3 for debug. */
  function EventRank(logLevel: string): (r: int)
    ensures 0 <= r < 4
  {
    IndexOf(LEVEL_ORDER, SubscriptionLevel(logLevel))
  }

  function LevelRank(sub: string): (r: int)
    ensures -1 <= r < 4
  {
    IndexOf(LEVEL_ORDER, Lower(sub))
  }

  /** The host's inline predicate; `None` is a subscription without a levels list. */
  predicate IncludesLevel(levels: Option<seq<string>>, logLevel: string) {
    var subs := if levels.Some? then levels.value else ["errors"];
    exists sub | sub in subs :: LevelRank(sub) >= EventRank(logLevel)
  }

  /** The same predicate as the shared utility module spells it: an empty list means the default. */
  predicate IncludesLevelUtil(levels: Option<seq<string>>, logLevel: string) {
    var subs := if levels.Some? && levels.value != [] then levels.value else ["errors"];
    exists sub | sub in subs :: LevelRank(sub) >= EventRank(logLevel)
  }

  /** `None` is a bridge that has not sent hello. */
  predicate HasCapability(caps: Option<seq<string>>, capability: string) {
    var cap := Lower(capability);
    cap != "" && caps.Some? && cap in LowerAll(caps.value)
  }

  function NonEmpty(xs: seq<string>): (r: seq<string>)
    ensures forall x :: x in r <==> x in xs && x != ""
  {
    if xs == [] then []
    else
      assert xs == [xs[0]] + xs[1..];
      (if xs[0] != "" then [xs[0]] else []) + NonEmpty(xs[1..])
  }

  predicate WantsCapability(caps: seq<string>, capability: string) {
    var requested := NonEmpty(LowerAll(caps));
    requested == [] || Lower(capability) in requested
  }

  /* ---------- the noise filter and the overload window ---------- */

  datatype NoiseFilter = Off | Minimal | Aggressive

  /** Unknown spellings of llm_filter fall back to off. */
  function ParseFilter(raw: string): NoiseFilter {
    var f := Lower(raw);
    if f == "minimal" then Minimal else if f == "aggressive" then Aggressive else Off
  }

  const WINDOW_MS := 10_000
  const WINDOW_LIMIT := 500

  datatype Window = Window(start: nat, count: nat)

  /** The window as the next evaluation at `now` finds it: a stale one is replaced by an empty one. */
  function Current(w: Window, now: nat): Window {
    if now - w.start > WINDOW_MS then Window(now, 0) else w
  }

  /** The window after one evaluation. */
  function Evaluate(w: Window, now: nat): Window {
    var c := Current(w, now);
    c.(count := c.count + 1)
  }

  /** The filter's verdict at the `count`-th evaluation of its window. */
  predicate FilterAccepts(filter: NoiseFilter, level: string, count: nat) {
    if count > WINDOW_LIMIT && filter != Off then level == "error"
    else
      var lvl := Lower(level);
      match filter
      case Off => true
      case Minimal => lvl != "debug" && lvl != "log"
      case Aggressive => lvl != "debug" && lvl != "log" && lvl != "info"
  }

  /* ---------- the routing decision ---------- */

  datatype Subscription = Subscription(levels: seq<string>, caps: seq<string>, filter: NoiseFilter)

  predicate Gated(messageType: string) {
    messageType == "pageview" || messageType == "screenshot" || messageType == "control" ||
    messageType == "network" || messageType == "navigation"
  }

  /** Everything the decision looks at besides the noise filter. Empty `level` and `typ` mean absent. */
  predicate Matches(sub: Option<Subscription>, typ: string, level: string, bridgeCaps: Option<seq<string>>) {
    var levels := if sub.Some? then Some(sub.value.levels) else None;
    var requested := if sub.Some? then sub.value.caps else [];
    var effectiveLevel := if level == "" then "info" else level;
    && IncludesLevel(levels, effectiveLevel)
    && (Gated(Lower(typ)) ==> WantsCapability(requested, Lower(typ)) && HasCapability(bridgeCaps, Lower(typ)))
  }

  /** The decision for one consumer whose filter, if any, is evaluated as number `count` of the window. */
  predicate Admits(sub: Option<Subscription>, typ: string, level: string, bridgeCaps: Option<seq<string>>, count: nat) {
    && (sub.Some? ==> FilterAccepts(sub.value.filter, level, count))
    && Matches(sub, typ, level, bridgeCaps)
  }

  /* ---------- properties ---------- */

  /** Highest recognised position in a list of subscribed levels, -1 when none is recognised. */
  function HighestRank(levels: seq<string>): (r: int)
    ensures -1 <= r < 4
  {
    if levels == [] then -1
    else
      var n := |levels| - 1;
      var rest, last := HighestRank(levels[..n]), LevelRank(levels[n]);
      if rest < last then last else rest
  }

  lemma {:induction false} HighestRankIsMax(levels: seq<string>)
    ensures forall sub | sub in levels :: LevelRank(sub) <= HighestRank(levels)
    ensures HighestRank(levels) >= 0 ==> exists sub | sub in levels :: LevelRank(sub) == HighestRank(levels)
  {
    if levels != [] {
      var n := |levels| - 1;
      HighestRankIsMax(levels[..n]);
      assert levels == levels[..n] + [levels[n]];
      if HighestRank(levels) >= 0 && HighestRank(levels[..n]) == HighestRank(levels) {
        var sub :| sub in levels[..n] && LevelRank(sub) == HighestRank(levels);
        assert sub in levels;
      } else {
        assert levels[n] in levels;
      }
    }
  }

  /** The hierarchy: a list admits exactly the events at or below its highest recognised level. */
  lemma {:induction false} IncludesLevelIsThreshold(levels: seq<string>, logLevel: string)
    ensures IncludesLevel(Some(levels), logLevel) <==> HighestRank(levels) >= EventRank(logLevel)
  {
    HighestRankIsMax(levels);
  }

  lemma ErrorsRank()
    ensures LevelRank("errors") == 0
  {
    assert Lower("errors") == "errors";
    assert LEVEL_ORDER[0] == "errors";
  }

  /** The two copies of the level predicate differ on exactly one family of inputs. */
  lemma TwinsDisagreeExactly(levels: Option<seq<string>>, logLevel: string)
    ensures (IncludesLevel(levels, logLevel) != IncludesLevelUtil(levels, logLevel))
            <==> (levels == Some([]) && Lower(logLevel) == "error")
  {
    ErrorsRank();
    RankOfEvent(logLevel);
    if levels == Some([]) {
      assert "errors" in ["errors"];
    }
  }

  /* ---------- the decision spelled out ---------- */

  predicate SameLetter(a: char, b: char) {
    || a == b
    || ('A' <= a <= 'Z' && b as int == a as int + 32)
    || ('A' <= b <= 'Z' && a as int == b as int + 32)
  }

  /** Equal but for the case of ASCII letters. */
  predicate SameWord(a: string, b: string) {
    |a| == |b| && forall i :: 0 <= i < |a| ==> SameLetter(a[i], b[i])
  }

  lemma LowerCharIgnoresCase(a: char, b: char)
    ensures LowerChar(a) == LowerChar(b) <==> SameLetter(a, b)
  {
  }

  /** Lower-casing is what makes comparisons ignore case, and it ignores nothing else. */
  lemma LowerIgnoresCase(a: string, b: string)
    ensures Lower(a) == Lower(b) <==> SameWord(a, b)
  {
    forall i | 0 <= i < |a| && i < |b|
      ensures Lower(a)[i] == Lower(b)[i] <==> SameLetter(a[i], b[i])
    {
      LowerCharIgnoresCase(a[i], b[i]);
    }
    if Lower(a) == Lower(b) {
      assert |a| == |Lower(a)| == |Lower(b)| == |b|;
    }
  }

  /** The levels a subscription may list to receive events of a log level. */
  function Including(logLevel: string): set<string> {
    var level := Lower(logLevel);
    if level == "error" then {"errors", "warn", "info", "trace"}
    else if level == "warn" then {"warn", "info", "trace"}
    else if level == "debug" then {"trace"}
    else {"info", "trace"}
  }

  lemma LevelsDiffer()
    ensures "errors" != "warn" && "errors" != "info" && "errors" != "trace"
    ensures "warn" != "info" && "warn" != "trace" && "info" != "trace"
    ensures "error" != "warn" && "error" != "debug" && "error" != "info" && "warn" != "debug" && "debug" != "info"
  {
    assert "errors"[0] == 'e' && "error"[0] == 'e' && "warn"[0] == 'w' && "info"[0] == 'i' && "trace"[0] == 't'
        && "debug"[0] == 'd';
  }

  lemma PositionOf(x: string)
    ensures IndexOf(LEVEL_ORDER, x) ==
            if x == "errors" then 0 else if x == "warn" then 1 else if x == "info" then 2
            else if x == "trace" then 3 else -1
  {
    LevelsDiffer();
    assert LEVEL_ORDER[0] == "errors" && LEVEL_ORDER[1] == "warn";
    assert LEVEL_ORDER[2] == "info" && LEVEL_ORDER[3] == "trace";
    var r := IndexOf(LEVEL_ORDER, x);
    assert r in {-1, 0, 1, 2, 3};
  }

  lemma RankOfEvent(logLevel: string)
    ensures EventRank(logLevel) ==
            match Lower(logLevel) case "error" => 0 case "warn" => 1 case "debug" => 3 case _ => 2
  {
    LevelsDiffer();
    PositionOf(SubscriptionLevel(logLevel));
  }

  lemma ListedIncludes(sub: string, logLevel: string)
    ensures LevelRank(sub) >= EventRank(logLevel) <==> Lower(sub) in Including(logLevel)
  {
    LevelsDiffer();
    PositionOf(Lower(sub));
    RankOfEvent(logLevel);
  }

  /** A list of levels admits an event iff it lists a level that includes the event's. */
  lemma LevelsAdmitExactly(levels: seq<string>, logLevel: string)
    ensures IncludesLevel(Some(levels), logLevel) <==> exists sub :: sub in levels && Lower(sub) in Including(logLevel)
  {
    forall sub | sub in levels
      ensures LevelRank(sub) >= EventRank(logLevel) <==> Lower(sub) in Including(logLevel)
    {
      ListedIncludes(sub, logLevel);
    }
  }

  predicate Lists(words: seq<string>, word: string) {
    exists w | w in words :: Lower(w) == Lower(word)
  }

  /** What each filter keeps from its consumer while the host is not overloaded. */
  function Muted(f: NoiseFilter): set<string> {
    match f case Off => {} case Minimal => {"debug", "log"} case Aggressive => {"debug", "log", "info"}
  }

  lemma ListsLowered(words: seq<string>, word: string)
    ensures Lower(word) in LowerAll(words) <==> Lists(words, word)
  {
    if Lists(words, word) {
      var i :| 0 <= i < |words| && Lower(words[i]) == Lower(word);
      assert LowerAll(words)[i] == Lower(word);
    }
  }

  lemma BlankLowered(word: string)
    ensures Lower(word) == "" <==> word == ""
  {
    assert |Lower(word)| == |word|;
  }

  lemma WantsExactly(caps: seq<string>, capability: string)
    requires capability != ""
    ensures WantsCapability(caps, capability) <==> (forall c :: c in caps ==> c == "") || Lists(caps, capability)
  {
    var requested := NonEmpty(LowerAll(caps));
    BlankLowered(capability);
    ListsLowered(caps, capability);
    if requested == [] {
      forall c | c in caps
        ensures c == ""
      {
        BlankLowered(c);
        var i :| 0 <= i < |caps| && caps[i] == c;
        assert LowerAll(caps)[i] in LowerAll(caps);
      }
    } else {
      assert requested[0] in requested;
      var i :| 0 <= i < |LowerAll(caps)| && LowerAll(caps)[i] == requested[0];
      BlankLowered(caps[i]);
      assert caps[i] in caps && caps[i] != "";
    }
  }

  lemma HasExactly(caps: Option<seq<string>>, capability: string)
    requires capability != ""
    ensures HasCapability(caps, capability) <==> caps.Some? && Lists(caps.value, capability)
  {
    BlankLowered(capability);
    if caps.Some? {
      ListsLowered(caps.value, capability);
    }
  }

  /** Lower-casing what is in lower case already changes nothing. */
  lemma LowerTwice(word: string)
    ensures Lower(Lower(word)) == Lower(word)
  {
  }

  lemma ListsIgnoresCase(words: seq<string>, word: string)
    ensures Lists(words, Lower(word)) == Lists(words, word)
  {
    LowerTwice(word);
  }

  /** The types of events that need a capability on both sides. */
  const GATED := {"pageview", "screenshot", "control", "network", "navigation"}

  lemma LevelExactly(levels: seq<string>, level: string)
    ensures IncludesLevel(Some(levels), if level == "" then "info" else level) <==>
              exists l :: l in levels && Lower(l) in Including(level)
  {
    LevelsAdmitExactly(levels, if level == "" then "info" else level);
    NoLevelIsInfo();
  }

  lemma NoLevelIsInfo()
    ensures Including("") == Including("info")
  {
    assert Lower("") == "" && Lower("info") == "info";
    LevelsDiffer();
  }

  lemma GateExactly(requested: seq<string>, typ: string, bridgeCaps: Option<seq<string>>)
    requires Lower(typ) in GATED
    ensures WantsCapability(requested, Lower(typ)) && HasCapability(bridgeCaps, Lower(typ)) <==>
              && ((forall c :: c in requested ==> c == "") || Lists(requested, typ))
              && bridgeCaps.Some? && Lists(bridgeCaps.value, typ)
  {
    WantsExactly(requested, Lower(typ));
    HasExactly(bridgeCaps, Lower(typ));
    ListsIgnoresCase(requested, typ);
    if bridgeCaps.Some? {
      ListsIgnoresCase(bridgeCaps.value, typ);
    }
  }

  lemma FilterExactly(filter: NoiseFilter, level: string, count: nat)
    ensures FilterAccepts(filter, level, count) <==>
              if count > 500 && filter != Off then level == "error" else Lower(level) !in Muted(filter)
  {
  }

  lemma GatedExactly(typ: string)
    ensures Gated(typ) <==> typ in GATED
  {
  }

  /**
   The whole decision for a subscribed consumer: the filter lets the level pass, or overload leaves errors
   only; a listed level includes the event's; and a gated type is advertised by the bridge and either
   requested or nothing is.
   */
  lemma AdmitsExactly(sub: Subscription, typ: string, level: string, bridgeCaps: Option<seq<string>>, count: nat)
    ensures Admits(Some(sub), typ, level, bridgeCaps, count) <==>
              && (if count > 500 && sub.filter != Off then level == "error" else Lower(level) !in Muted(sub.filter))
              && (exists l :: l in sub.levels && Lower(l) in Including(level))
              && (Lower(typ) in GATED ==>
                    && ((forall c :: c in sub.caps ==> c == "") || Lists(sub.caps, typ))
                    && bridgeCaps.Some? && Lists(bridgeCaps.value, typ))
  {
    FilterExactly(sub.filter, level, count);
    LevelExactly(sub.levels, level);
    GatedExactly(Lower(typ));
    if Gated(Lower(typ)) {
      GateExactly(sub.caps, typ, bridgeCaps);
    }
  }

  /** `wide` asks for at least what `narrow` asks for: an empty request stands for every capability. */
  ghost predicate WiderCaps(narrow: seq<string>, wide: seq<string>) {
    var n, w := NonEmpty(LowerAll(narrow)), NonEmpty(LowerAll(wide));
    w == [] || (n != [] && forall c :: c in n ==> c in w)
  }

  function Strictness(f: NoiseFilter): nat {
    match f case Off => 0 case Minimal => 1 case Aggressive => 2
  }

  ghost predicate Wider(narrow: Subscription, wide: Subscription) {
    && (forall l :: l in narrow.levels ==> l in wide.levels)
    && WiderCaps(narrow.caps, wide.caps)
    && Strictness(wide.filter) <= Strictness(narrow.filter)
  }

  lemma MoreLevelsInclude(narrow: seq<string>, wide: seq<string>, level: string)
    requires (forall l :: l in narrow ==> l in wide) && IncludesLevel(Some(narrow), level)
    ensures IncludesLevel(Some(wide), level)
  {
    var sub :| sub in narrow && LevelRank(sub) >= EventRank(level);
    assert sub in wide;
  }

  lemma LooserFilterAccepts(narrow: NoiseFilter, wide: NoiseFilter, level: string, count: nat)
    requires Strictness(wide) <= Strictness(narrow) && FilterAccepts(narrow, level, count)
    ensures FilterAccepts(wide, level, count)
  {
  }

  lemma WiderCapsWant(narrow: seq<string>, wide: seq<string>, capability: string)
    requires WiderCaps(narrow, wide) && WantsCapability(narrow, capability)
    ensures WantsCapability(wide, capability)
  {
  }

  /** Widening a subscription in any of its three parts never loses an event. */
  lemma WideningNeverLoses(narrow: Subscription, wide: Subscription, typ: string, level: string,
                           bridgeCaps: Option<seq<string>>, count: nat)
    requires Wider(narrow, wide)
    requires Admits(Some(narrow), typ, level, bridgeCaps, count)
    ensures Admits(Some(wide), typ, level, bridgeCaps, count)
  {
    MoreLevelsInclude(narrow.levels, wide.levels, if level == "" then "info" else level);
    LooserFilterAccepts(narrow.filter, wide.filter, level, count);
    if Gated(Lower(typ)) {
      WiderCapsWant(narrow.caps, wide.caps, Lower(typ));
    }
  }

  /** A gated event of a bridge that never said hello reaches nobody. */
  lemma NoHelloNoGatedEvents(sub: Option<Subscription>, typ: string, level: string, count: nat)
    ensures Gated(Lower(typ)) ==> !Admits(sub, typ, level, None, count)
    ensures !Gated(Lower(typ)) ==>
              forall caps :: Admits(sub, typ, level, None, count) == Admits(sub, typ, level, caps, count)
  {
    assert forall x: string :: Gated(Lower(x)) ==> !HasCapability(None, Lower(x));
  }

  lemma UntypedIsNotGated()
    ensures !Gated(Lower("")) && !Gated(Lower("log"))
  {
    assert Lower("") == "" && Lower("log") == "log";
    assert "log"[0] == 'l' && "pageview"[0] == 'p' && "screenshot"[0] == 's' && "control"[0] == 'c'
        && "network"[0] == 'n' && "navigation"[0] == 'n';
  }

  /** A consumer that never subscribed gets error events only, gated ones only from a bridge that advertised them. */
  lemma DefaultIsErrorsOnly(typ: string, level: string, bridgeCaps: Option<seq<string>>, count: nat)
    ensures Admits(None, typ, level, bridgeCaps, count) <==>
              && Lower(level) == "error"
              && (Lower(typ) in GATED ==> bridgeCaps.Some? && Lists(bridgeCaps.value, typ))
  {
    var eff := if level == "" then "info" else level;
    assert Lower("info") == "info" && Lower("") == "";
    LevelsDiffer();
    ErrorsRank();
    RankOfEvent(eff);
    assert "errors" in ["errors"];
    assert IncludesLevel(None, eff) <==> Lower(level) == "error";
    GatedExactly(Lower(typ));
    if Gated(Lower(typ)) {
      GateExactly([], typ, bridgeCaps);
    }
  }
}
