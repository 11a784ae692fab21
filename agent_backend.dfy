/**
 * The scenario handling of the two Flask handlers (jira_agent_backend.py):
 * `/suggest-scenarios` deduplicates the generated scenarios, wraps a bare
 * list of actions into one scenario and lists the scenarios in a subtask;
 * `/run-tests` reads the numbered lines back as scenarios to run. A
 * module-level set of issue keys keeps a second request for the same issue
 * out while one is in flight.
 */
module AgentBackend {
  import opened Wrappers
  import opened Strings
  import opened SubtaskManager

  // ---- deduplication ----

  /**
   * One element of the generated scenario list: its "scenario" entry (missing
   * when the dictionary has no such key) and whether it has an "action" key.
   */
  datatype Item = Item(scenario: Option<string>, hasAction: bool)

  predicate AllNamed(items: seq<Item>) {
    forall i :: 0 <= i < |items| ==> Named(items[i])
  }

  predicate Named(item: Item) {
    item.scenario.Some?
  }

  /** `s["scenario"].strip().lower()`, for an element that has the key. */
  function Key(item: Item): string {
    Lower(Strip(item.scenario.GetOr("")))
  }

  /**
   * The keys of a list under `key`. The dedup below is stated for any key
   * function, and used with `Key`.
   */
  function Keys<T>(items: seq<T>, key: T -> string): set<string> {
    set i | 0 <= i < |items| :: key(items[i])
  }

  /** The elements kept: each one whose key no earlier element had. */
  function Kept<T>(items: seq<T>, key: T -> string): seq<T>
    decreases |items|
  {
    if |items| == 0 then []
    else
      var init := items[..|items| - 1];
      var last := items[|items| - 1];
      if key(last) in Keys(init, key) then Kept(init, key) else Kept(init, key) + [last]
  }

  /** The positions of the kept elements in the input. */
  function KeptIndexes<T>(items: seq<T>, key: T -> string): seq<nat>
    decreases |items|
  {
    if |items| == 0 then []
    else
      var init := items[..|items| - 1];
      if key(items[|items| - 1]) in Keys(init, key) then KeptIndexes(init, key) else KeptIndexes(init, key) + [|items| - 1]
  }

  /** Element `i` is the first with its key. */
  predicate FirstOfKey<T>(items: seq<T>, key: T -> string, i: nat)
    requires i < |items|
  {
    forall j :: 0 <= j < i ==> key(items[j]) != key(items[i])
  }

  const MissingScenarioMessage := "'scenario'"

  /** Adding an element adds its key. */
  lemma KeysSnoc<T>(items: seq<T>, key: T -> string, x: T)
    ensures Keys(items + [x], key) == Keys(items, key) + {key(x)}
  {
    var r := items + [x];
    assert forall k :: 0 <= k < |items| ==> r[k] == items[k];
    assert r[|items|] == x;
  }

  /** Kept, one element at a time. */
  lemma KeptSnoc<T>(items: seq<T>, key: T -> string, x: T)
    ensures Kept(items + [x], key) == if key(x) in Keys(items, key) then Kept(items, key) else Kept(items, key) + [x]
  {
    assert (items + [x])[..|items|] == items;
  }

  /**
   * The dedup loop of `suggest_scenarios`, for any key function and any test
   * of whether an element can be keyed: the first element that cannot stops
   * the loop with an error.
   */
  method DedupBy<T>(items: seq<T>, key: T -> string, keyed: T -> bool) returns (r: Result<seq<T>, string>)
    ensures r.Err? <==> exists i :: 0 <= i < |items| && !keyed(items[i])
    ensures r.Err? ==> r.error == MissingScenarioMessage
    ensures r.Ok? ==> r.value == Kept(items, key)
  {
    var seen: set<string> := {};
    var unique: seq<T> := [];
    var i := 0;
    while i < |items|
      invariant 0 <= i <= |items|
      invariant forall k :: 0 <= k < i ==> keyed(items[k])
      invariant seen == Keys(items[..i], key)
      invariant unique == Kept(items[..i], key)
    {
      if !keyed(items[i]) {
        return Err(MissingScenarioMessage);
      }
      var k := key(items[i]);
      assert items[..i + 1] == items[..i] + [items[i]];
      KeysSnoc(items[..i], key, items[i]);
      KeptSnoc(items[..i], key, items[i]);
      if k !in seen {
        seen := seen + {k};
        unique := unique + [items[i]];
      }
      i := i + 1;
    }
    assert items[..i] == items;
    return Ok(unique);
  }

  /**
   * `suggest_scenarios`' dedup: by the stripped, lowercased "scenario" entry;
   * an element without one raises `KeyError`, which the handler turns into an
   * error reply.
   */
  method DedupScenarios(items: seq<Item>) returns (r: Result<seq<Item>, string>)
    ensures r.Err? <==> !AllNamed(items)
    ensures r.Err? ==> r.error == MissingScenarioMessage
    ensures r.Ok? ==> r.value == Kept(items, Key)
  {
    r := DedupBy(items, Key, Named);
  }

  /** The kept elements are the input at the kept positions. */
  lemma {:induction false} KeptAtIndexes<T>(items: seq<T>, key: T -> string)
    ensures |Kept(items, key)| == |KeptIndexes(items, key)|
    ensures forall k :: 0 <= k < |KeptIndexes(items, key)| ==>
      KeptIndexes(items, key)[k] < |items| && Kept(items, key)[k] == items[KeptIndexes(items, key)[k]]
    decreases |items|
  {
    if |items| > 0 {
      var init := items[..|items| - 1];
      KeptAtIndexes(init, key);
    }
  }

  /** The prefix test and the test on the whole list agree on whether element `n` is a first. */
  lemma FirstOfKeyLast<T>(items: seq<T>, key: T -> string)
    requires |items| > 0
    ensures FirstOfKey(items, key, |items| - 1) <==> key(items[|items| - 1]) !in Keys(items[..|items| - 1], key)
  {
    var n := |items| - 1;
    var init := items[..n];
    if key(items[n]) in Keys(init, key) {
      var j :| 0 <= j < n && key(init[j]) == key(items[n]);
      assert items[j] == init[j];
    }
    if !FirstOfKey(items, key, n) {
      var j :| 0 <= j < n && key(items[j]) == key(items[n]);
      assert init[j] == items[j];
    }
  }

  /**
   * A position is kept exactly when it is the first with its key, and the
   * kept positions are in input order.
   */
  lemma {:induction false} KeptIndexesAreFirsts<T>(items: seq<T>, key: T -> string)
    ensures forall i :: 0 <= i < |items| ==> (i in KeptIndexes(items, key) <==> FirstOfKey(items, key, i))
    ensures forall j, k :: 0 <= j < k < |KeptIndexes(items, key)| ==> KeptIndexes(items, key)[j] < KeptIndexes(items, key)[k]
    decreases |items|
  {
    if |items| > 0 {
      var n := |items| - 1;
      var init := items[..n];
      KeptIndexesAreFirsts(init, key);
      KeptAtIndexes(init, key);
      forall i | 0 <= i < n
        ensures FirstOfKey(items, key, i) <==> FirstOfKey(init, key, i)
      {
        assert forall j :: 0 <= j <= i ==> init[j] == items[j];
      }
      FirstOfKeyLast(items, key);
    }
  }

  /** No two kept elements share a key, and every key of the input is kept. */
  lemma {:induction false} KeptKeysDistinct<T>(items: seq<T>, key: T -> string)
    ensures forall j, k :: 0 <= j < k < |Kept(items, key)| ==> key(Kept(items, key)[j]) != key(Kept(items, key)[k])
    ensures Keys(Kept(items, key), key) == Keys(items, key)
    decreases |items|
  {
    if |items| > 0 {
      var n := |items| - 1;
      var init := items[..n];
      KeptKeysDistinct(init, key);
      assert items == init + [items[n]];
      KeysSnoc(init, key, items[n]);
      var kept := Kept(init, key);
      if key(items[n]) !in Keys(init, key) {
        KeysSnoc(kept, key, items[n]);
        var r := kept + [items[n]];
        forall j | 0 <= j < |kept|
          ensures key(r[j]) != key(r[|kept|])
        {
          assert r[j] == kept[j];
          assert key(kept[j]) in Keys(kept, key);
        }
        forall j, k | 0 <= j < k < |kept|
          ensures key(r[j]) != key(r[k])
        {
          assert r[j] == kept[j] && r[k] == kept[k];
        }
      }
    }
  }

  // ---- wrapping and the description ----

  /** An element of the scenario list after wrapping. */
  datatype Scenario = Listed(item: Item) | Unnamed(steps: seq<Item>)

  const UnnamedScenario := "Unnamed scenario"

  /**
   * `all("action" in s for s in scenarios)` wraps the whole list, the empty
   * list included, into one "Unnamed scenario".
   */
  function WrapIfActions(items: seq<Item>): (r: seq<Scenario>)
    ensures (forall i :: 0 <= i < |items| ==> items[i].hasAction) ==> r == [Unnamed(items)]
    ensures !(forall i :: 0 <= i < |items| ==> items[i].hasAction) ==>
      |r| == |items| && forall i :: 0 <= i < |items| ==> r[i] == Listed(items[i])
  {
    if forall i :: 0 <= i < |items| ==> items[i].hasAction then [Unnamed(items)]
    else seq(|items|, i requires 0 <= i < |items| => Listed(items[i]))
  }

  /** `s['scenario']`; every listed element has the key once dedup has passed. */
  function ScenarioName(s: Scenario): string {
    match s
    case Listed(item) => item.scenario.GetOr("")
    case Unnamed(_) => UnnamedScenario
  }

  const SuggestedSummary := "Suggested Test Scenarios"
  const HeaderStart := "The following scenarios are generated"
  const HeaderEnd := " for testing this story:\n\n"
  /** The first line of the subtask description, and the blank line after it. */
  const DescriptionHeader := HeaderStart + HeaderEnd

  /** `f"{idx}. {name}"` */
  function NumberedLine(idx: nat, name: string): string {
    NatToString(idx) + ". " + name
  }

  /** The numbered lines for `names`, counting from `start`, each ending in a newline. */
  function NumberedFrom(names: seq<string>, start: nat): string {
    Listing(names, start, NumberedLine)
  }

  /** One `line(idx, name)` per name, counting from `start`, each ending in a newline. */
  function Listing(names: seq<string>, start: nat, line: (nat, string) -> string): string
    decreases |names|
  {
    if |names| == 0 then "" else line(start, names[0]) + "\n" + Listing(names[1..], start + 1, line)
  }

  /** Appending a name appends its line. */
  lemma {:induction false} NumberedFromSnoc(names: seq<string>, name: string, start: nat)
    ensures NumberedFrom(names + [name], start) == NumberedFrom(names, start) + NumberedLine(start + |names|, name) + "\n"
  {
    ListingSnoc(names, name, start, NumberedLine);
  }

  lemma {:induction false} ListingSnoc(names: seq<string>, name: string, start: nat, line: (nat, string) -> string)
    ensures Listing(names + [name], start, line) == Listing(names, start, line) + line(start + |names|, name) + "\n"
    decreases |names|
  {
    var all := names + [name];
    if |names| == 0 {
      assert all[1..] == [];
    } else {
      assert all[0] == names[0] && all[1..] == names[1..] + [name];
      ListingSnoc(names[1..], name, start + 1, line);
    }
  }

  /** The names `suggest_scenarios` lists. */
  function Names(scenarios: seq<Scenario>): seq<string> {
    seq(|scenarios|, i requires 0 <= i < |scenarios| => ScenarioName(scenarios[i]))
  }

  /** The loop that builds `desc`: the header, then one numbered line per scenario. */
  method Describe(names: seq<string>) returns (desc: string)
    ensures desc == DescriptionHeader + NumberedFrom(names, 1)
  {
    desc := DescriptionHeader;
    var i := 0;
    while i < |names|
      invariant 0 <= i <= |names|
      invariant desc == DescriptionHeader + NumberedFrom(names[..i], 1)
    {
      NumberedFromSnoc(names[..i], names[i], 1);
      assert names[..i] + [names[i]] == names[..i + 1];
      desc := desc + NumberedLine(i + 1, names[i]) + "\n";
      i := i + 1;
    }
    assert names[..i] == names;
  }

  // ---- re.findall(r"\d+\.\s+(.*)", text) ----

  predicate NotNewline(c: char) {
    c != '\n'
  }

  /**
   * The match starting at `p`, if any: its group and where it ends. The
   * digits, the white space and the group are each taken whole; giving back
   * a digit or a space cannot help the rest of the pattern.
   */
  function MatchAt(t: string, p: nat): (r: Option<(string, nat)>)
    requires p <= |t|
    ensures r.Some? ==> p < r.value.1 <= |t|
  {
    if p < |t| && IsDigit(t[p]) then
      var e := p + Span(t, p, IsDigit);
      if e < |t| && t[e] == '.' then
        var w := Span(t, e + 1, IsSpace);
        if w >= 1 then
          var c := e + 1 + w;
          var n := Span(t, c, NotNewline);
          Some((t[c..c + n], c + n))
        else None
      else None
    else None
  }

  /** `re.findall` from position `p`: each search resumes where the previous match ended. */
  function FindAll(t: string, p: nat): seq<string>
    requires p <= |t|
    decreases |t| - p
  {
    if p == |t| then []
    else
      match MatchAt(t, p)
      case Some((group, end)) => [group] + FindAll(t, end)
      case None => FindAll(t, p + 1)
  }

  /** `raw_steps` for a subtask description. */
  function RawSteps(description: string): seq<string> {
    FindAll(Strip(description), 0)
  }

  /**
   * In text that does not end in white space no group is blank: the group
   * starts at the first character after the white space, which must exist.
   */
  lemma {:induction false} GroupsNotBlank(t: string, p: nat)
    requires p <= |t|
    requires |t| == 0 || !IsSpace(t[|t| - 1])
    ensures forall k :: 0 <= k < |FindAll(t, p)| ==> !IsBlank(FindAll(t, p)[k])
    decreases |t| - p
  {
    if p < |t| {
      match MatchAt(t, p)
      case Some((group, end)) =>
        GroupsNotBlank(t, end);
        var e := p + Span(t, p, IsDigit);
        SpanStops(t, e + 1, IsSpace);
        var c := e + 1 + Span(t, e + 1, IsSpace);
        assert c < |t|;
        assert group[0] == t[c];
        NotBlank(group);
      case None =>
        GroupsNotBlank(t, p + 1);
    }
  }

  /** A name that lists and reads back unchanged: one line, no white space at its ends. */
  predicate Listable(name: string) {
    |name| > 0 && !IsSpace(name[0]) && !IsSpace(name[|name| - 1]) && '\n' !in name
  }

  /** No character of a listable name ends a line. */
  lemma OneLine(name: string)
    requires Listable(name)
    ensures forall k :: 0 <= k < |name| ==> NotNewline(name[k])
  {
    forall k | 0 <= k < |name|
      ensures NotNewline(name[k])
    {
      assert name[k] in name;
    }
  }

  /** At the start of a numbered line, the match captures the name and stops at the line's end. */
  lemma LineMatch(t: string, p: nat, idx: nat, name: string)
    requires Listable(name)
    requires p + |NumberedLine(idx, name)| <= |t|
    requires t[p..p + |NumberedLine(idx, name)|] == NumberedLine(idx, name)
    requires p + |NumberedLine(idx, name)| == |t| || t[p + |NumberedLine(idx, name)|] == '\n'
    ensures MatchAt(t, p) == Some((name, p + |NumberedLine(idx, name)|))
  {
    var digits := NatToString(idx);
    assert |NumberedLine(idx, name)| == |digits| + 2 + |name|;
    DigitsLineMatch(t, p, digits, name);
  }

  /** `LineMatch` for any non-empty run of digits in front of ". ". */
  lemma DigitsLineMatch(t: string, p: nat, digits: string, name: string)
    requires |digits| >= 1 && AllDigits(digits) && Listable(name)
    requires p + |digits| + 2 + |name| <= |t|
    requires t[p..p + |digits| + 2 + |name|] == digits + ". " + name
    requires p + |digits| + 2 + |name| == |t| || t[p + |digits| + 2 + |name|] == '\n'
    ensures MatchAt(t, p) == Some((name, p + |digits| + 2 + |name|))
  {
    var c := p + |digits| + 2;
    LineSpans(t, p, digits, name);
    MatchAtSpans(t, p, p + |digits|, c, |name|);
    assert t[c..c + |name|] == name;
    assert (t[c..c + |name|], c + |name|) == (name, c + |name|);
  }

  /** The spans `MatchAt` measures on a numbered line: the digits, one space, the name. */
  lemma LineSpans(t: string, p: nat, digits: string, name: string)
    requires |digits| >= 1 && AllDigits(digits) && Listable(name)
    requires p + |digits| + 2 + |name| <= |t|
    requires t[p..p + |digits| + 2 + |name|] == digits + ". " + name
    requires p + |digits| + 2 + |name| == |t| || t[p + |digits| + 2 + |name|] == '\n'
    ensures IsDigit(t[p]) && Span(t, p, IsDigit) == |digits| && t[p + |digits|] == '.'
    ensures Span(t, p + |digits| + 1, IsSpace) == 1
    ensures Span(t, p + |digits| + 2, NotNewline) == |name|
    ensures t[p + |digits| + 2..p + |digits| + 2 + |name|] == name
  {
    var e := p + |digits|;
    var c := e + 2;
    LinePieces(t, p, digits, name);
    CopySpan(t, p, digits, IsDigit);
    assert t[p] == digits[0];
    SpanFrom(t, e + 1, 1, IsSpace);
    OneLine(name);
    CopySpan(t, c, name, NotNewline);
  }

  /**
   * A copy of `s` at `p` whose characters are all allowed, followed by the
   * end or a character that is not, is a span of length `|s|`.
   */
  lemma CopySpan(t: string, p: nat, s: string, allowed: char -> bool)
    requires p + |s| <= |t| && t[p..p + |s|] == s
    requires forall k :: 0 <= k < |s| ==> allowed(s[k])
    requires p + |s| == |t| || !allowed(t[p + |s|])
    ensures Span(t, p, allowed) == |s|
  {
    forall k | p <= k < p + |s|
      ensures allowed(t[k])
    {
      assert t[k] == t[p..p + |s|][k - p];
    }
    SpanFrom(t, p, |s|, allowed);
  }

  /**
   * `MatchAt` in terms of the three spans it measures: digits up to `e`, a
   * dot, white space up to `c`, then `n` characters up to the line's end.
   */
  lemma MatchAtSpans(t: string, p: nat, e: nat, c: nat, n: nat)
    requires p < e < |t| && IsDigit(t[p]) && Span(t, p, IsDigit) == e - p
    requires t[e] == '.'
    requires e + 1 < c && Span(t, e + 1, IsSpace) == c - e - 1
    requires c <= |t| && Span(t, c, NotNewline) == n
    ensures c + n <= |t|
    ensures MatchAt(t, p) == Some((t[c..c + n], c + n))
  {
  }

  /** Where the digits, the dot, the space and the name of a numbered line sit in `t`. */
  lemma LinePieces(t: string, p: nat, digits: string, name: string)
    requires p + |digits| + 2 + |name| <= |t|
    requires t[p..p + |digits| + 2 + |name|] == digits + ". " + name
    ensures t[p..p + |digits|] == digits
    ensures t[p + |digits|] == '.' && t[p + |digits| + 1] == ' '
    ensures t[p + |digits| + 2..p + |digits| + 2 + |name|] == name
  {
    var d := |digits|;
    var line := digits + ". " + name;
    assert t[p..p + d] == line[..d] == digits;
    assert t[p + d] == line[d] == '.';
    assert t[p + d + 1] == line[d + 1] == ' ';
    assert t[p + d + 2..p + d + 2 + |name|] == line[d + 2..] == name;
  }

  /** A match at `p` is the first element found from `p`. */
  lemma FindAllCons(t: string, p: nat, group: string, end: nat)
    requires p < |t| && MatchAt(t, p) == Some((group, end))
    ensures FindAll(t, p) == [group] + FindAll(t, end)
  {
  }

  /** A search from a newline moves on to the next character. */
  lemma NoMatchAtNewline(t: string, p: nat)
    requires p < |t| && t[p] == '\n'
    ensures FindAll(t, p) == FindAll(t, p + 1)
  {
  }

  /** Characters that cannot start a match are passed over. */
  lemma {:induction false} SkipNonDigits(t: string, p: nat, m: nat)
    requires p <= m <= |t|
    requires forall k :: p <= k < m ==> !IsDigit(t[k])
    ensures FindAll(t, p) == FindAll(t, m)
    decreases m - p
  {
    if p < m {
      SkipNonDigits(t, p + 1, m);
    }
  }

  /**
   * Text that, given back its final newline, is `pre` followed by numbered
   * lines: the search from the end of `pre` reads back the names.
   */
  lemma {:induction false} FindAllNumbered(t: string, pre: string, names: seq<string>, start: nat)
    requires |names| >= 1
    requires forall i :: 0 <= i < |names| ==> Listable(names[i])
    requires t + "\n" == pre + NumberedFrom(names, start)
    ensures |pre| <= |t| && FindAll(t, |pre|) == names
    decreases |names|
  {
    var pre' := FirstNumberedLine(t, pre, names, start);
    if |names| > 1 {
      NoMatchAtNewline(t, |pre'| - 1);
      FindAllNumbered(t, pre', names[1..], start + 1);
    }
    assert [names[0]] + names[1..] == names;
  }

  /**
   * The first numbered line yields the first name; the search goes on from
   * the end of that line, which is the end of the text exactly when no
   * name follows, and otherwise holds the newline before the next line.
   */
  lemma FirstNumberedLine(t: string, pre: string, names: seq<string>, start: nat) returns (pre': string)
    requires |names| >= 1 && Listable(names[0])
    requires t + "\n" == pre + NumberedFrom(names, start)
    ensures |pre| < |pre'| <= |t| + 1
    ensures t + "\n" == pre' + NumberedFrom(names[1..], start + 1)
    ensures FindAll(t, |pre|) == [names[0]] + FindAll(t, |pre'| - 1)
    ensures |names| == 1 ==> |pre'| == |t| + 1 && FindAll(t, |pre'| - 1) == []
    ensures |names| > 1 ==> |pre'| <= |t| && t[|pre'| - 1] == '\n'
  {
    var line := NumberedLine(start, names[0]);
    var rest := NumberedFrom(names[1..], start + 1);
    assert NumberedFrom(names, start) == line + "\n" + rest;
    pre' := pre + line + "\n";
    assert t + "\n" == pre' + rest;
    LineAt(t, pre, line, rest);
    LineFound(t, |pre|, start, names[0]);
    if |names| > 1 {
      assert |rest| > 0;
    }
  }

  /** A numbered line at `p` is found there, and the search resumes at its end. */
  lemma LineFound(t: string, p: nat, idx: nat, name: string)
    requires Listable(name)
    requires p + |NumberedLine(idx, name)| <= |t|
    requires t[p..p + |NumberedLine(idx, name)|] == NumberedLine(idx, name)
    requires p + |NumberedLine(idx, name)| == |t| || t[p + |NumberedLine(idx, name)|] == '\n'
    ensures FindAll(t, p) == [name] + FindAll(t, p + |NumberedLine(idx, name)|)
  {
    LineMatch(t, p, idx, name);
    FindAllCons(t, p, name, p + |NumberedLine(idx, name)|);
  }

  /** In `pre + line + "\n" + rest`, less its final newline, `line` sits right after `pre`. */
  lemma LineAt(t: string, pre: string, line: string, rest: string)
    requires t + "\n" == pre + line + "\n" + rest
    ensures |pre| + |line| <= |t| && t[|pre|..|pre| + |line|] == line
    ensures |pre| + |line| == |t| <==> rest == ""
    ensures |pre| + |line| < |t| ==> t[|pre| + |line|] == '\n'
  {
    var u := t + "\n";
    var p := |pre|;
    assert u[p..p + |line|] == line;
    assert t[p..p + |line|] == u[p..p + |line|];
    if p + |line| < |t| {
      assert t[p + |line|] == u[p + |line|];
    }
  }

  lemma HeaderHasNoDigit()
    ensures forall k :: 0 <= k < |DescriptionHeader| ==> !IsDigit(DescriptionHeader[k])
  {
    assert forall k :: 0 <= k < |HeaderStart| ==> !IsDigit(HeaderStart[k]);
    assert forall k :: 0 <= k < |HeaderEnd| ==> !IsDigit(HeaderEnd[k]);
  }

  lemma HeaderStartsPrintable()
    ensures !IsSpace(DescriptionHeader[0]) && |DescriptionHeader| >= 2
    ensures IsSpace(DescriptionHeader[|DescriptionHeader| - 1])
  {
    assert DescriptionHeader[0] == HeaderStart[0];
  }

  /**
   * The subtask description `suggest_scenarios` writes is read back by
   * `run_tests` as the listed names, in order.
   */
  lemma {:induction false} DescriptionRoundTrip(names: seq<string>)
    requires forall i :: 0 <= i < |names| ==> Listable(names[i])
    ensures RawSteps(DescriptionHeader + NumberedFrom(names, 1)) == names
  {
    if |names| == 0 {
      HeaderAloneRoundTrip();
      assert DescriptionHeader + NumberedFrom(names, 1) == DescriptionHeader;
    } else {
      ListingRoundTrip(names);
    }
  }

  /** A description with no scenario listed reads back no step. */
  lemma HeaderAloneRoundTrip()
    ensures RawSteps(DescriptionHeader) == []
  {
    var d := DescriptionHeader;
    HeaderHasNoDigit();
    HeaderStartsPrintable();
    StripPrefixOf(d, |d|);
    var t := Strip(d);
    assert forall k :: 0 <= k < |t| ==> t[k] == d[k];
    SkipNonDigits(t, 0, |t|);
  }

  /** A description listing at least one name reads back the names. */
  lemma {:induction false} ListingRoundTrip(names: seq<string>)
    requires |names| > 0
    requires forall i :: 0 <= i < |names| ==> Listable(names[i])
    ensures RawSteps(DescriptionHeader + NumberedFrom(names, 1)) == names
  {
    var h := DescriptionHeader;
    HeaderStartsPrintable();
    NumberedLast(names, 1);
    var t := StripListing(h, NumberedFrom(names, 1));
    HeaderSkipped(t);
    FindAllNumbered(t, h, names, 1);
  }

  /** The search passes over the header, which holds no digit. */
  lemma HeaderSkipped(t: string)
    requires |DescriptionHeader| <= |t| && t[..|DescriptionHeader|] == DescriptionHeader
    ensures FindAll(t, 0) == FindAll(t, |DescriptionHeader|)
  {
    var h := DescriptionHeader;
    HeaderHasNoDigit();
    forall k | 0 <= k < |h|
      ensures !IsDigit(t[k])
    {
      assert t[k] == t[..|h|][k];
    }
    SkipNonDigits(t, 0, |h|);
  }

  /**
   * Stripping a header that starts with a non-space, followed by a listing
   * whose last line ends in a non-space and a newline, drops only that newline.
   */
  lemma {:induction false} StripListing(h: string, listing: string) returns (t: string)
    requires |h| >= 1 && !IsSpace(h[0])
    requires |listing| >= 2 && listing[|listing| - 1] == '\n' && !IsSpace(listing[|listing| - 2])
    ensures t == Strip(h + listing) && t + "\n" == h + listing
    ensures |h| <= |t| && t[..|h|] == h
  {
    var d := h + listing;
    assert d[0] == h[0];
    assert d[|d| - 1] == '\n' && d[|d| - 2] == listing[|listing| - 2];
    StripFinalNewline(d);
    t := d[..|d| - 1];
    assert t + "\n" == d by {
      assert t + [d[|d| - 1]] == d;
    }
    assert t[..|h|] == d[..|h|];
  }

  /** The last line of a non-empty listing ends with the last name's last character and a newline. */
  lemma {:induction false} NumberedLast(names: seq<string>, start: nat)
    requires |names| >= 1 && Listable(names[|names| - 1])
    ensures |NumberedFrom(names, start)| >= 2
    ensures NumberedFrom(names, start)[|NumberedFrom(names, start)| - 1] == '\n'
    ensures !IsSpace(NumberedFrom(names, start)[|NumberedFrom(names, start)| - 2])
  {
    var init := names[..|names| - 1];
    var last := names[|names| - 1];
    assert init + [last] == names;
    NumberedFromSnoc(init, last, start);
    var line := NumberedLine(start + |init|, last);
    assert line[|line| - 1] == last[|last| - 1];
  }

  /** Stripping text that starts with a non-space and ends in one space after a non-space drops that space. */
  lemma StripFinalNewline(s: string)
    requires |s| >= 2 && !IsSpace(s[0]) && IsSpace(s[|s| - 1]) && !IsSpace(s[|s| - 2])
    ensures Strip(s) == s[..|s| - 1]
  {
    LStripNoSpace(s);
    assert s == s[..|s| - 1] + [s[|s| - 1]];
    RStripTrailingSpace(s[..|s| - 1], s[|s| - 1]);
  }

  /** The stripped header is a prefix of the header. */
  lemma StripPrefixOf(s: string, h: nat)
    requires |s| >= 1 && !IsSpace(s[0])
    ensures |Strip(s)| <= |s| && Strip(s) == s[..|Strip(s)|]
  {
    LStripNoSpace(s);
  }

  // ---- the scenarios run_tests builds ----

  /** `{"scenario": f"Scenario {i}", "steps": f"{context}\n\n{step}"}` */
  datatype TestScenario = TestScenario(scenario: string, steps: string)

  function RunScenario(context: string, i: nat, step: string): TestScenario {
    TestScenario("Scenario " + NatToString(i), context + "\n\n" + step)
  }

  /** The comprehension over `enumerate(raw_steps, 1)` that keeps non-blank steps. */
  function RunScenarios(context: string, raw: seq<string>): seq<TestScenario>
    decreases |raw|
  {
    if |raw| == 0 then []
    else
      var n := |raw|;
      RunScenarios(context, raw[..n - 1]) + (if IsBlank(raw[n - 1]) then [] else [RunScenario(context, n, raw[n - 1])])
  }

  method BuildRunScenarios(context: string, raw: seq<string>) returns (scenarios: seq<TestScenario>)
    ensures scenarios == RunScenarios(context, raw)
  {
    scenarios := [];
    var i := 0;
    while i < |raw|
      invariant 0 <= i <= |raw|
      invariant scenarios == RunScenarios(context, raw[..i])
    {
      assert raw[..i + 1][..i] == raw[..i];
      if !IsBlank(raw[i]) {
        scenarios := scenarios + [RunScenario(context, i + 1, raw[i])];
      }
      i := i + 1;
    }
    assert raw[..i] == raw;
  }

  /** With no blank step, scenario `i` is "Scenario i+1" over step `i`: there are no gaps. */
  lemma {:induction false} RunScenariosNoGaps(context: string, raw: seq<string>)
    requires forall k :: 0 <= k < |raw| ==> !IsBlank(raw[k])
    ensures |RunScenarios(context, raw)| == |raw|
    ensures forall k :: 0 <= k < |raw| ==> RunScenarios(context, raw)[k] == RunScenario(context, k + 1, raw[k])
    decreases |raw|
  {
    if |raw| > 0 {
      var n := |raw|;
      var init := raw[..n - 1];
      RunScenariosNoGaps(context, init);
      var r := RunScenarios(context, raw);
      assert r == RunScenarios(context, init) + [RunScenario(context, n, raw[n - 1])];
      forall k | 0 <= k < n
        ensures r[k] == RunScenario(context, k + 1, raw[k])
      {
        if k < n - 1 {
          assert init[k] == raw[k];
        }
      }
    }
  }

  /**
   * Every description is read without gaps: `step.strip()` never drops a
   * step of a stripped text, so scenario `i` always runs step `i`.
   */
  lemma RunScenariosOfDescription(context: string, description: string)
    ensures |RunScenarios(context, RawSteps(description))| == |RawSteps(description)|
    ensures forall k :: 0 <= k < |RawSteps(description)| ==>
      RunScenarios(context, RawSteps(description))[k] == RunScenario(context, k + 1, RawSteps(description)[k])
  {
    GroupsNotBlank(Strip(description), 0);
    RunScenariosNoGaps(context, RawSteps(description));
  }

  // ---- the handlers ----

  /** What a handler answers. */
  datatype Response =
    | BadRequest(message: string)
    | Skipped(message: string)
    | SkippedExisting(subtask: string)
    | Created(subtask: string, fields: SubtaskFields, count: nat)
    | Completed(subtask: string, results: nat)
    | Failed(message: string)

  const KeyRequired := "issueKey required"
  const AlreadyProcessing := "Already being processed"
  const AlreadyRunning := "Tests already running"
  const NoSubtask := "No test subtask found."
  const SubtaskDone := "Test subtask is already marked as Done."
  const NoDescription := "'NoneType' object has no attribute 'strip'"

  const GeneratedLabel := "scenarios-generated"
  const SelectedLabel := "scenarios-selected"
  const AutoTestedLabel := "auto-tested"
  const InProgressLabel := "testing-in-progress"

  /** `if not issue_key`: a missing or empty key. */
  predicate MissingKey(issueKey: Option<string>) {
    issueKey.None? || issueKey.value == ""
  }

  /** The subtask found by the search in `run_tests`. */
  datatype Subtask = Subtask(key: string, statusName: string, description: Option<string>)

  /** The story's labels after a completed test run. */
  function LabelsAfterRun(labels: seq<string>): seq<string> {
    WithoutLabel(WithoutLabel(WithLabel(WithoutLabel(labels, SelectedLabel), AutoTestedLabel), InProgressLabel), GeneratedLabel)
  }

  /**
   * A completed run leaves "auto-tested" on a story whose labels had no
   * duplicate, and the labels "scenarios-selected", "testing-in-progress" and
   * "scenarios-generated" off it.
   */
  lemma LabelsAfterRunClean(labels: seq<string>)
    requires NoDuplicates(labels)
    ensures var r := LabelsAfterRun(labels);
      AutoTestedLabel in r && SelectedLabel !in r && InProgressLabel !in r && GeneratedLabel !in r && NoDuplicates(r)
  {
    var a := WithoutLabel(labels, SelectedLabel);
    WithoutLabelAbsent(labels, SelectedLabel);
    var b := WithLabel(a, AutoTestedLabel);
    WithLabelNoDuplicates(a, AutoTestedLabel);
    var c := WithoutLabel(b, InProgressLabel);
    WithoutLabelAbsent(b, InProgressLabel);
    WithoutLabelKeepsOthers(b, InProgressLabel, AutoTestedLabel);
    WithoutLabelKeepsOthers(b, InProgressLabel, SelectedLabel);
    var d := WithoutLabel(c, GeneratedLabel);
    WithoutLabelAbsent(c, GeneratedLabel);
    WithoutLabelKeepsOthers(c, GeneratedLabel, AutoTestedLabel);
    WithoutLabelKeepsOthers(c, GeneratedLabel, SelectedLabel);
    WithoutLabelKeepsOthers(c, GeneratedLabel, InProgressLabel);
  }

  /** The Flask app's module-level state: the issues being processed. */
  class Backend {
    var recentIssues: set<string>

    constructor ()
      ensures recentIssues == {}
    {
      recentIssues := {};
    }

    /**
     * `/suggest-scenarios`. `items` is what the scenario generator returned,
     * `existing` the key of a subtask the search found, `projectKey` the
     * parent's project and `newKey` the key Jira gives the new subtask.
     */
    method SuggestScenarios(issueKey: Option<string>, items: seq<Item>, existing: Option<string>,
                            story: Issue, projectKey: string, newKey: string) returns (resp: Response)
      requires issueKey.Some? ==> story.key == issueKey.value
      modifies this, story
      ensures recentIssues == old(recentIssues)
      ensures MissingKey(issueKey) ==> resp == BadRequest(KeyRequired) && unchanged(story)
      ensures !MissingKey(issueKey) && issueKey.value in old(recentIssues) ==>
        resp == Skipped(AlreadyProcessing) && unchanged(story)
      ensures !MissingKey(issueKey) && issueKey.value !in old(recentIssues) && !AllNamed(items) ==>
        resp == Failed(MissingScenarioMessage) && unchanged(story)
      ensures !MissingKey(issueKey) && issueKey.value !in old(recentIssues) && AllNamed(items) && existing.Some? ==>
        resp == SkippedExisting(existing.value) && unchanged(story)
      ensures !MissingKey(issueKey) && issueKey.value !in old(recentIssues) && AllNamed(items) && existing.None? ==>
        resp == Created(newKey,
          NewSubtaskFields(issueKey.value, projectKey, SuggestedSummary,
            DescriptionHeader + NumberedFrom(Names(WrapIfActions(Kept(items, Key))), 1), DefaultSubtaskLabel),
          |WrapIfActions(Kept(items, Key))|)
        && story.Labels() == WithLabel(old(story.Labels()), GeneratedLabel)
    {
      if MissingKey(issueKey) {
        return BadRequest(KeyRequired);
      }
      var key := issueKey.value;
      if key in recentIssues {
        return Skipped(AlreadyProcessing);
      }
      recentIssues := recentIssues + {key};
      resp := Suggest(key, items, existing, story, projectKey, newKey);
      recentIssues := recentIssues - {key};
    }

    /** `/run-tests`: `subtask` is the search hit, `context` the story description. */
    method RunTests(issueKey: Option<string>, subtask: Option<Subtask>, context: string,
                    story: Issue, transitions: seq<Transition>) returns (resp: Response, scenarios: seq<TestScenario>)
      requires issueKey.Some? ==> story.key == issueKey.value
      modifies this, story
      ensures recentIssues == old(recentIssues)
      ensures MissingKey(issueKey) ==> resp == BadRequest(KeyRequired) && unchanged(story)
      ensures !MissingKey(issueKey) && issueKey.value in old(recentIssues) ==>
        resp == Skipped(AlreadyRunning) && unchanged(story)
      ensures !MissingKey(issueKey) && issueKey.value !in old(recentIssues) ==>
        RunOutcome(subtask, context, old(story.Labels()), resp, scenarios, story.Labels())
    {
      scenarios := [];
      if MissingKey(issueKey) {
        return BadRequest(KeyRequired), [];
      }
      var key := issueKey.value;
      if key in recentIssues {
        return Skipped(AlreadyRunning), [];
      }
      recentIssues := recentIssues + {key};
      resp, scenarios := Run(subtask, context, story, transitions);
      recentIssues := recentIssues - {key};
    }
  }

  /** The body of the `try` in `suggest_scenarios`. */
  method Suggest(key: string, items: seq<Item>, existing: Option<string>, story: Issue, projectKey: string, newKey: string)
    returns (resp: Response)
    requires story.key == key
    modifies story
    ensures !AllNamed(items) ==> resp == Failed(MissingScenarioMessage) && unchanged(story)
    ensures AllNamed(items) && existing.Some? ==> resp == SkippedExisting(existing.value) && unchanged(story)
    ensures AllNamed(items) && existing.None? ==>
      resp == Created(newKey,
        NewSubtaskFields(key, projectKey, SuggestedSummary,
          DescriptionHeader + NumberedFrom(Names(WrapIfActions(Kept(items, Key))), 1), DefaultSubtaskLabel),
        |WrapIfActions(Kept(items, Key))|)
      && story.Labels() == WithLabel(old(story.Labels()), GeneratedLabel)
  {
    var deduped := DedupScenarios(items);
    if deduped.Err? {
      return Failed(deduped.error);
    }
    var scenarios := WrapIfActions(deduped.value);
    var desc := Describe(Names(scenarios));
    if existing.Some? {
      return SkippedExisting(existing.value);
    }
    AddLabel(story, GeneratedLabel);
    var fields := NewSubtaskFields(key, projectKey, SuggestedSummary, desc, DefaultSubtaskLabel);
    return Created(newKey, fields, |scenarios|);
  }

  /** What the body of the `try` in `run_tests` does, given the search hit. */
  predicate RunOutcome(subtask: Option<Subtask>, context: string, labels: seq<string>,
                       resp: Response, scenarios: seq<TestScenario>, newLabels: seq<string>)
  {
    if subtask.None? then resp == Skipped(NoSubtask) && newLabels == labels
    else if Lower(subtask.value.statusName) == "done" then resp == Skipped(SubtaskDone) && newLabels == labels
    else if subtask.value.description.None? then resp == Failed(NoDescription) && newLabels == labels
    else
      scenarios == RunScenarios(context, RawSteps(subtask.value.description.value))
      && resp == Completed(subtask.value.key, |scenarios|)
      && newLabels == LabelsAfterRun(labels)
  }

  /** The body of the `try` in `run_tests`. */
  method Run(subtask: Option<Subtask>, context: string, story: Issue, transitions: seq<Transition>)
    returns (resp: Response, scenarios: seq<TestScenario>)
    modifies story
    ensures RunOutcome(subtask, context, old(story.Labels()), resp, scenarios, story.Labels())
  {
    scenarios := [];
    if subtask.None? {
      return Skipped(NoSubtask), [];
    }
    var s := subtask.value;
    if Lower(s.statusName) == "done" {
      return Skipped(SubtaskDone), [];
    }
    if s.description.None? {
      return Failed(NoDescription), [];
    }
    var raw := RawSteps(s.description.value);
    scenarios := BuildRunScenarios(context, raw);
    RemoveLabel(story, SelectedLabel);
    AddLabel(story, AutoTestedLabel);
    RemoveLabel(story, InProgressLabel);
    RemoveLabel(story, GeneratedLabel);
    var _ := TransitionToDone(transitions);
    resp := Completed(s.key, |scenarios|);
  }
}
