/**
 * Reading the tester's choice of scenarios from Jira comments
 * (jira_test_selector.py): `parse_test_selection` turns a reply such as
 * "run 1,3" or "run all" into a selection, and `wait_for_test_selection`
 * scans the issue's comments, poll after poll, for the first new reply that
 * starts with "run".
 *
 * The regular expression `run\s+([0-9, ]+)` is written out as a scan that
 * follows Python's leftmost, greedy, backtracking search; comment creation
 * times are integers; the deadline is the number of polls made before it.
 */
module TestSelector {
  import opened Wrappers
  import opened Strings

  /** `"all"`, or the list of zero-based scenario indexes. */
  datatype Selection = All | Indexes(indexes: seq<int>)

  /** An empty selection: what the source returns as `[]`. */
  const NoSelection := Indexes([])

  /** The characters of the class `[0-9, ]`. */
  predicate InGroupSet(c: char) {
    IsDigit(c) || c == ',' || c == ' '
  }

  /**
   * The group `([0-9, ]+)` when `\s+` is tried with `k`, `k - 1`, ..., 1
   * characters after position `q`: the first length after which a class
   * character follows wins, and the group takes the whole run of them.
   */
  function GroupAfter(t: string, q: nat, k: nat): (g: Option<string>)
    requires q + k <= |t|
    ensures g.Some? ==> |g.value| > 0 && forall i :: 0 <= i < |g.value| ==> InGroupSet(g.value[i])
    decreases k
  {
    if k == 0 then None
    else
      var n := Span(t, q + k, InGroupSet);
      SpanStops(t, q + k, InGroupSet);
      if n > 0 then Some(t[q + k..q + k + n]) else GroupAfter(t, q, k - 1)
  }

  /** The group of `run\s+([0-9, ]+)` when the match starts at `p`, if it does. */
  function MatchAt(t: string, p: nat): Option<string>
    requires p <= |t|
  {
    if StartsWith(t[p..], "run") then GroupAfter(t, p + 3, Span(t, p + 3, IsSpace)) else None
  }

  /** `re.search`: the group of the leftmost match at or after `p`. */
  function Search(t: string, p: nat): Option<string>
    requires p <= |t|
    decreases |t| - p
  {
    if p == |t| then None
    else
      match MatchAt(t, p)
      case Some(g) => Some(g)
      case None => Search(t, p + 1)
  }

  /**
   * `[int(i.strip()) - 1 for i in items]`, or `None` when `int()` raises
   * `ValueError` on some item (an empty item, or digits with a space inside).
   */
  function ParseItems(items: seq<string>): (r: Option<seq<int>>)
    ensures r.Some? ==> |r.value| == |items| && forall i :: 0 <= i < |items| ==> r.value[i] >= -1
    decreases |items|
  {
    if |items| == 0 then Some([])
    else
      var s := Strip(items[0]);
      if |s| > 0 && AllDigits(s) then
        match ParseItems(items[1..])
        case Some(rest) => Some([DecimalValue(s) - 1] + rest)
        case None => None
      else None
  }

  /**
   * `parse_test_selection`: "run all" anywhere wins; otherwise the numbers
   * after the first "run" become zero-based indexes, and anything malformed
   * gives the empty selection. No index is bounded above, and "run 0" gives
   * -1.
   */
  function ParseTestSelection(text: string): (r: Selection)
    ensures r == All <==> Contains(text, "run all")
    ensures r.Indexes? ==> forall i :: 0 <= i < |r.indexes| ==> r.indexes[i] >= -1
    ensures Search(text, 0).None? ==> r == All || r == NoSelection
  {
    if Contains(text, "run all") then All
    else
      match Search(text, 0)
      case None => NoSelection
      case Some(group) =>
        match ParseItems(Split(group, ','))
        case Some(indexes) => Indexes(indexes)
        case None => NoSelection
  }

  /** The decimal numerals of `numbers`, in order. */
  function Numerals(numbers: seq<nat>): (r: seq<string>)
    ensures |r| == |numbers|
    ensures forall k :: 0 <= k < |numbers| ==> r[k] == NatToString(numbers[k])
    decreases |numbers|
  {
    if |numbers| == 0 then [] else [NatToString(numbers[0])] + Numerals(numbers[1..])
  }

  /** Each 1-based number minus one. */
  function ZeroBased(numbers: seq<nat>): (r: seq<int>)
    ensures |r| == |numbers|
    ensures forall k :: 0 <= k < |numbers| ==> r[k] == numbers[k] as int - 1
    decreases |numbers|
  {
    if |numbers| == 0 then [] else [numbers[0] as int - 1] + ZeroBased(numbers[1..])
  }

  /** The reply the suggestion comment asks for, such as "run 1,3", for 1-based numbers. */
  function SelectionReply(numbers: seq<nat>): string {
    "run " + Join(Numerals(numbers), ',')
  }

  lemma {:induction false} JoinChars(parts: seq<string>, sep: char, i: nat)
    requires i < |Join(parts, sep)|
    ensures Join(parts, sep)[i] == sep || exists k, m :: 0 <= k < |parts| && 0 <= m < |parts[k]| && Join(parts, sep)[i] == parts[k][m]
    decreases |parts|
  {
    if |parts| == 1 {
      assert Join(parts, sep)[i] == parts[0][i];
    } else if |parts| > 1 {
      var j := Join(parts, sep);
      if i < |parts[0]| {
        assert j[i] == parts[0][i];
      } else if i > |parts[0]| {
        var i' := i - |parts[0]| - 1;
        assert j[i] == Join(parts[1..], sep)[i'];
        JoinChars(parts[1..], sep, i');
        if j[i] != sep {
          var k, m :| 0 <= k < |parts[1..]| && 0 <= m < |parts[1..][k]| && Join(parts[1..], sep)[i'] == parts[1..][k][m];
          assert j[i] == parts[k + 1][m];
        }
      }
    }
  }

  lemma StripUnpadded(s: string)
    requires |s| > 0 && !IsSpace(s[0]) && !IsSpace(s[|s| - 1])
    ensures Strip(s) == s
  {
    LStripNoSpace(s);
  }

  lemma {:induction false} ParseNumerals(numbers: seq<nat>)
    ensures ParseItems(Numerals(numbers)) == Some(ZeroBased(numbers))
    decreases |numbers|
  {
    if |numbers| > 0 {
      var items := Numerals(numbers);
      assert items[1..] == Numerals(numbers[1..]);
      NumeralItem(numbers[0]);
      ParseNumerals(numbers[1..]);
      ParseItemsHead(items, numbers[0], ZeroBased(numbers[1..]));
      assert ZeroBased(numbers) == [numbers[0] as int - 1] + ZeroBased(numbers[1..]);
    }
  }

  /** A numeral is its own stripped text, and reads back as its number. */
  lemma NumeralItem(n: nat)
    ensures Strip(NatToString(n)) == NatToString(n)
    ensures |NatToString(n)| > 0 && AllDigits(NatToString(n)) && DecimalValue(NatToString(n)) == n
  {
    var s := NatToString(n);
    assert IsDigit(s[0]) && IsDigit(s[|s| - 1]);
    StripUnpadded(s);
  }

  /** `ParseItems` on an item that strips to a numeral of `n`, in front of items that parse. */
  lemma {:induction false} ParseItemsHead(items: seq<string>, n: nat, rest: seq<int>)
    requires |items| > 0 && Strip(items[0]) == items[0]
    requires |items[0]| > 0 && AllDigits(items[0]) && DecimalValue(items[0]) == n
    requires ParseItems(items[1..]) == Some(rest)
    ensures ParseItems(items) == Some([n as int - 1] + rest)
  {
    var s := Strip(items[0]);
    assert s == items[0];
  }

  /** Text in which the character at position `pos` of `sub` never appears late enough does not contain `sub`. */
  lemma AbsentCharacter(t: string, sub: string, pos: nat)
    requires pos < |sub|
    requires forall i :: pos <= i < |t| ==> t[i] != sub[pos]
    ensures !Contains(t, sub)
  {
    forall i: nat | OccursAt(t, sub, i)
      ensures t[i + pos] == sub[pos]
    {
      assert t[i..i + |sub|][pos] == t[i + pos];
    }
  }

  /** Every character after "run " in a reply is a digit or a comma. */
  lemma ReplyCharacters(numbers: seq<nat>)
    ensures forall i :: 4 <= i < |SelectionReply(numbers)| ==> IsDigit(SelectionReply(numbers)[i]) || SelectionReply(numbers)[i] == ','
  {
    var parts := Numerals(numbers);
    var j := Join(parts, ',');
    var t := SelectionReply(numbers);
    forall i | 4 <= i < |t|
      ensures IsDigit(t[i]) || t[i] == ','
    {
      assert t[i] == j[i - 4];
      JoinChars(parts, ',', i - 4);
    }
  }

  /** Text "run " followed by digits and commas, starting with a digit, matches at once and all of it after "run " is the group. */
  lemma SearchRunDigits(t: string, j: string)
    requires t == "run " + j && |j| > 0 && IsDigit(j[0])
    requires forall i :: 4 <= i < |t| ==> IsDigit(t[i]) || t[i] == ','
    ensures Search(t, 0) == Some(j)
  {
    assert Span(t, 4, IsSpace) == 0;
    assert Span(t, 3, IsSpace) == 1;
    SpanFrom(t, 4, |j|, InGroupSet);
    assert t[4..4 + |j|] == j;
    assert StartsWith(t[0..], "run");
    assert MatchAt(t, 0) == Some(j);
  }

  /** The search for `run\s+([0-9, ]+)` in a reply matches at its start and takes everything after "run ". */
  lemma SearchReply(numbers: seq<nat>)
    requires |numbers| >= 1
    ensures Search(SelectionReply(numbers), 0) == Some(Join(Numerals(numbers), ','))
  {
    var parts := Numerals(numbers);
    var j := Join(parts, ',');
    ReplyCharacters(numbers);
    assert j[0] == parts[0][0] by {
      if |parts| > 1 {
        assert j == parts[0] + [','] + Join(parts[1..], ',');
      }
    }
    SearchRunDigits(SelectionReply(numbers), j);
  }

  /**
   * A reply written the way the suggestion comment asks ("run 1,3") reads
   * back as the zero-based indexes of the numbers it lists.
   */
  lemma ParseSelectionReply(numbers: seq<nat>)
    requires |numbers| >= 1
    ensures ParseTestSelection(SelectionReply(numbers)) == Indexes(ZeroBased(numbers))
  {
    var t := SelectionReply(numbers);
    ReplyCharacters(numbers);
    AbsentCharacter(t, "run all", 4);
    SearchReply(numbers);
    SplitJoin(Numerals(numbers), ',');
    ParseNumerals(numbers);
  }

  /** An item `int(i.strip())` accepts: it strips to a non-empty digit string. */
  predicate IntItem(item: string) {
    |Strip(item)| > 0 && AllDigits(Strip(item))
  }

  /** One item that does not strip to a digit string makes `int()` raise, so the whole list fails. */
  lemma {:induction false} ParseItemsRejects(items: seq<string>, i: nat)
    requires i < |items| && !IntItem(items[i])
    ensures ParseItems(items) == None
    decreases i
  {
    if i > 0 {
      assert ParseItems(items[1..]).None? by {
        assert items[1..][i - 1] == items[i];
        ParseItemsRejects(items[1..], i - 1);
      }
    }
    ParseItemsStep(items);
  }

  /** `ParseItems` fails when its first item is not a numeral or the rest fails. */
  lemma ParseItemsStep(items: seq<string>)
    requires |items| > 0
    requires !IntItem(items[0]) || ParseItems(items[1..]).None?
    ensures ParseItems(items) == None
  {
  }

  /** Every item is one `int(i.strip())` accepts. */
  predicate AllInts(items: seq<string>) {
    forall i :: 0 <= i < |items| ==> IntItem(items[i])
  }

  /** `indexes` holds, for each item, that item's number minus one. */
  predicate IndexesOf(items: seq<string>, indexes: seq<int>) {
    |indexes| == |items| && forall i :: 0 <= i < |items| ==> IntItem(items[i]) && indexes[i] == ItemIndex(items[i])
  }

  /**
   * `ParseItems` succeeds exactly when every item strips to a digit string,
   * and then index `i` is item `i`'s number minus one, whatever spaces or
   * leading zeros surround it.
   */
  lemma ParseItemsValues(items: seq<string>)
    ensures ParseItems(items).Some? <==> AllInts(items)
    ensures ParseItems(items).Some? ==> IndexesOf(items, ParseItems(items).value)
  {
    ParseItemsSucceeds(items);
    ParseItemsIndexes(items);
  }

  lemma {:induction false} ParseItemsSucceeds(items: seq<string>)
    ensures ParseItems(items).Some? <==> AllInts(items)
    decreases |items|
  {
    if |items| > 0 {
      ParseItemsSucceeds(items[1..]);
      AllIntsCons(items);
      if IntItem(items[0]) && ParseItems(items[1..]).Some? {
        ParseItemsCons(items, ParseItems(items[1..]).value);
      } else {
        ParseItemsStep(items);
      }
    }
  }

  lemma {:induction false} ParseItemsIndexes(items: seq<string>)
    ensures ParseItems(items).Some? ==> IndexesOf(items, ParseItems(items).value)
    decreases |items|
  {
    if |items| > 0 && ParseItems(items).Some? {
      if IntItem(items[0]) && ParseItems(items[1..]).Some? {
        var rest := ParseItems(items[1..]).value;
        ParseItemsIndexes(items[1..]);
        ParseItemsCons(items, rest);
        IndexesOfCons(items, rest);
      } else {
        ParseItemsStep(items);
      }
    }
  }

  lemma AllIntsCons(items: seq<string>)
    requires |items| > 0
    ensures AllInts(items) <==> IntItem(items[0]) && AllInts(items[1..])
  {
    assert forall i :: 1 <= i < |items| ==> items[i] == items[1..][i - 1];
  }

  lemma IndexesOfCons(items: seq<string>, rest: seq<int>)
    requires |items| > 0 && IntItem(items[0]) && IndexesOf(items[1..], rest)
    ensures IndexesOf(items, [ItemIndex(items[0])] + rest)
  {
    var r := [ItemIndex(items[0])] + rest;
    forall i | 1 <= i < |items|
      ensures IntItem(items[i]) && r[i] == ItemIndex(items[i])
    {
      assert items[i] == items[1..][i - 1] && r[i] == rest[i - 1];
    }
  }

  /** `ParseItems` puts the first item's number minus one in front of the rest's indexes. */
  lemma ParseItemsCons(items: seq<string>, rest: seq<int>)
    requires |items| > 0 && IntItem(items[0]) && ParseItems(items[1..]) == Some(rest)
    ensures ParseItems(items) == Some([ItemIndex(items[0])] + rest)
  {
    var s := Strip(items[0]);
    assert |s| > 0 && AllDigits(s);
  }

  /** `int(i.strip()) - 1` for an item `int()` accepts. */
  function ItemIndex(item: string): int
    requires IntItem(item)
  {
    DecimalValue(Strip(item)) - 1
  }

  /**
   * Without "run all", the selection of a "run" match is empty exactly when
   * some comma-separated item of its group is not an integer; otherwise it
   * holds one index per item, that item's number minus one.
   */
  lemma SelectionValues(text: string, group: string)
    requires !Contains(text, "run all") && Search(text, 0) == Some(group)
    ensures ParseTestSelection(text) == NoSelection <==> !AllInts(Split(group, ','))
    ensures AllInts(Split(group, ',')) ==>
      ParseTestSelection(text).Indexes? && IndexesOf(Split(group, ','), ParseTestSelection(text).indexes)
  {
    var items := Split(group, ',');
    ParseItemsValues(items);
    SelectionOfItems(text, group);
    match ParseItems(items)
    case Some(indexes) =>
      assert AllInts(items) && IndexesOf(items, indexes);
      assert |indexes| == |items| >= 1;
    case None =>
      assert !AllInts(items);
  }

  /** Without "run all", a "run" match selects what `ParseItems` makes of its items. */
  lemma SelectionOfItems(text: string, group: string)
    requires !Contains(text, "run all") && Search(text, 0) == Some(group)
    ensures ParseTestSelection(text) ==
      match ParseItems(Split(group, ','))
      case Some(indexes) => Indexes(indexes)
      case None => NoSelection
  {
  }

  /**
   * Without "run all", a "run" match whose group holds an empty or
   * non-numeric item gives the empty selection.
   */
  lemma MalformedSelection(text: string, group: string, i: nat)
    requires !Contains(text, "run all") && Search(text, 0) == Some(group)
    requires i < |Split(group, ',')|
    requires !IntItem(Split(group, ',')[i])
    ensures ParseTestSelection(text) == NoSelection
  {
    ParseItemsRejects(Split(group, ','), i);
  }

  /** "run 0" selects index -1: no lower bound is checked. */
  lemma RunZero()
    ensures ParseTestSelection("run 0") == Indexes([-1])
  {
    assert NatToString(0) == "0";
    assert Numerals([0]) == ["0"];
    assert SelectionReply([0]) == "run 0";
    ParseSelectionReply([0]);
  }

  // ---- wait_for_test_selection ----

  /** A Jira comment: its id, creation time and text. */
  datatype Comment = Comment(id: string, created: int, body: string)

  /** `c.body.lower().strip()` */
  function Normalize(body: string): string {
    Strip(Lower(body))
  }

  predicate IsReply(c: Comment) {
    StartsWith(Normalize(c.body), "run")
  }

  /** The comments of all polls, one poll after another. */
  function Concat(polls: seq<seq<Comment>>): seq<Comment>
    decreases |polls|
  {
    if |polls| == 0 then [] else polls[0] + Concat(polls[1..])
  }

  /** What a reply decides: its normalised body, parsed. */
  function Decide(c: Comment): Selection {
    ParseTestSelection(Normalize(c.body))
  }

  /**
   * The comment scan: comments created at or before `since`, or whose id is
   * in `seen`, are skipped; any other comment's id is remembered, and the
   * first of them whose normalised body starts with "run" is parsed.
   */
  function Scan(cs: seq<Comment>, since: int, seen: set<string>): Selection {
    ScanBy(cs, since, seen, IsReply, Decide)
  }

  /** The scan for any test of a reply and any decision on it. */
  function ScanBy(cs: seq<Comment>, since: int, seen: set<string>, reply: Comment -> bool, decide: Comment -> Selection): Selection
    decreases |cs|
  {
    if |cs| == 0 then NoSelection
    else
      var c := cs[0];
      if c.created <= since || c.id in seen then ScanBy(cs[1..], since, seen, reply, decide)
      else if reply(c) then decide(c)
      else ScanBy(cs[1..], since, seen + {c.id}, reply, decide)
  }

  /**
   * `wait_for_test_selection`: `polls[i]` is what `jira.comments` returns on
   * poll `i`, and the polls listed are those made before the deadline.
   */
  method WaitForTestSelection(polls: seq<seq<Comment>>, since: int) returns (sel: Selection)
    ensures sel == Scan(Concat(polls), since, {})
  {
    var seen: set<string> := {};
    var i := 0;
    while i < |polls|
      invariant 0 <= i <= |polls|
      invariant Scan(Concat(polls), since, {}) == Scan(Concat(polls[i..]), since, seen)
    {
      var comments := polls[i];
      ghost var later := Concat(polls[i + 1..]);
      ConcatNext(polls, i);
      var j := 0;
      while j < |comments|
        invariant 0 <= j <= |comments|
        invariant Scan(Concat(polls), since, {}) == Scan(comments[j..] + later, since, seen)
      {
        var c := comments[j];
        ScanNext(comments, j, later, since, seen);
        if c.created <= since || c.id in seen {
          j := j + 1;
          continue;
        }
        seen := seen + {c.id};
        var body := Normalize(c.body);
        if StartsWith(body, "run") {
          return ParseTestSelection(body);
        }
        j := j + 1;
      }
      PollDone(comments, later);
      i := i + 1;
    }
    sel := NoSelection;
  }

  /** The comments from poll `i` on: poll `i`, then the later polls. */
  lemma {:induction false} ConcatNext(polls: seq<seq<Comment>>, i: nat)
    requires i < |polls|
    ensures Concat(polls[i..]) == polls[i] + Concat(polls[i + 1..])
  {
    assert polls[i..][1..] == polls[i + 1..];
  }

  /** Past the last comment of a poll only the later polls are left. */
  lemma {:induction false} PollDone(comments: seq<Comment>, later: seq<Comment>)
    ensures comments[|comments|..] + later == later
  {
    assert comments[|comments|..] == [];
  }

  /** One step of the scan over comment `j` of a poll, followed by the comments of the later polls. */
  lemma {:induction false} ScanNext(comments: seq<Comment>, j: nat, later: seq<Comment>, since: int, seen: set<string>)
    requires j < |comments|
    ensures var c := comments[j];
      Scan(comments[j..] + later, since, seen) ==
        if c.created <= since || c.id in seen then Scan(comments[j + 1..] + later, since, seen)
        else if StartsWith(Normalize(c.body), "run") then ParseTestSelection(Normalize(c.body))
        else Scan(comments[j + 1..] + later, since, seen + {c.id})
  {
    var cs := comments[j..] + later;
    assert cs[0] == comments[j];
    assert cs[1..] == comments[j + 1..] + later;
  }

  /** The seen-set after the scan has passed `c`. */
  function SeenAfter(c: Comment, since: int, seen: set<string>): set<string> {
    if c.created <= since || c.id in seen then seen else seen + {c.id}
  }

  /**
   * Comment `j` of the stream is looked at: it is newer than `since`, and no
   * earlier comment newer than `since` had its id (nor does `seen`).
   */
  predicate FirstSighting(cs: seq<Comment>, since: int, seen: set<string>, j: nat)
    requires j < |cs|
  {
    cs[j].created > since && cs[j].id !in seen
    && forall k :: 0 <= k < j && cs[k].created > since ==> cs[k].id != cs[j].id
  }

  lemma {:induction false} FirstSightingShift(cs: seq<Comment>, since: int, seen: set<string>, j: nat)
    requires 0 < j < |cs|
    ensures FirstSighting(cs, since, seen, j) <==> FirstSighting(cs[1..], since, SeenAfter(cs[0], since, seen), j - 1)
  {
    var seen' := SeenAfter(cs[0], since, seen);
    if FirstSighting(cs[1..], since, seen', j - 1) {
      forall k | 0 <= k < j && cs[k].created > since
        ensures cs[k].id != cs[j].id
      {
        if k > 0 {
          assert cs[1..][k - 1] == cs[k];
        }
      }
    }
  }

  /**
   * With no new reply starting with "run" among the comments, the wait ends
   * with the empty selection.
   */
  lemma ScanWithoutReply(cs: seq<Comment>, since: int, seen: set<string>)
    requires forall j :: 0 <= j < |cs| && FirstSighting(cs, since, seen, j) ==> !IsReply(cs[j])
    ensures Scan(cs, since, seen) == NoSelection
  {
    ScanByWithoutReply(cs, since, seen, IsReply, Decide);
  }

  /**
   * The first comment looked at whose body starts with "run" decides the
   * selection, whatever follows it.
   */
  lemma ScanFirstReplyWins(cs: seq<Comment>, since: int, seen: set<string>, j: nat)
    requires j < |cs| && FirstSighting(cs, since, seen, j) && IsReply(cs[j])
    requires forall k :: 0 <= k < j && FirstSighting(cs, since, seen, k) ==> !IsReply(cs[k])
    ensures Scan(cs, since, seen) == ParseTestSelection(Normalize(cs[j].body))
  {
    ScanByFirstReplyWins(cs, since, seen, IsReply, Decide, j);
  }

  lemma {:induction false} ScanByWithoutReply(cs: seq<Comment>, since: int, seen: set<string>,
                                               reply: Comment -> bool, decide: Comment -> Selection)
    requires forall j :: 0 <= j < |cs| && FirstSighting(cs, since, seen, j) ==> !reply(cs[j])
    ensures ScanBy(cs, since, seen, reply, decide) == NoSelection
    decreases |cs|
  {
    if |cs| > 0 {
      var seen' := SeenAfter(cs[0], since, seen);
      assert cs[0].created > since && cs[0].id !in seen ==> FirstSighting(cs, since, seen, 0);
      forall j | 0 <= j < |cs[1..]| && FirstSighting(cs[1..], since, seen', j)
        ensures !reply(cs[1..][j])
      {
        FirstSightingShift(cs, since, seen, j + 1);
      }
      ScanByWithoutReply(cs[1..], since, seen', reply, decide);
    }
  }

  /** A first comment that is not a reply looked at for the first time only moves the scan on. */
  lemma ScanPastNonReply(cs: seq<Comment>, since: int, seen: set<string>, reply: Comment -> bool, decide: Comment -> Selection)
    requires |cs| > 0
    requires FirstSighting(cs, since, seen, 0) ==> !reply(cs[0])
    ensures ScanBy(cs, since, seen, reply, decide) == ScanBy(cs[1..], since, SeenAfter(cs[0], since, seen), reply, decide)
  {
  }

  /** No reply before position `j` stays no reply before `j - 1` once the first comment is passed. */
  lemma NonRepliesShift(cs: seq<Comment>, since: int, seen: set<string>, j: nat, reply: Comment -> bool)
    requires 0 < j < |cs|
    requires forall k :: 0 <= k < j && FirstSighting(cs, since, seen, k) ==> !reply(cs[k])
    ensures forall k :: 0 <= k < j - 1 && FirstSighting(cs[1..], since, SeenAfter(cs[0], since, seen), k) ==> !reply(cs[1..][k])
  {
    forall k | 0 <= k < j - 1 && FirstSighting(cs[1..], since, SeenAfter(cs[0], since, seen), k)
      ensures !reply(cs[1..][k])
    {
      FirstSightingShift(cs, since, seen, k + 1);
      assert cs[1..][k] == cs[k + 1];
    }
  }

  lemma {:induction false} ScanByFirstReplyWins(cs: seq<Comment>, since: int, seen: set<string>,
                                                 reply: Comment -> bool, decide: Comment -> Selection, j: nat)
    requires j < |cs| && FirstSighting(cs, since, seen, j) && reply(cs[j])
    requires forall k :: 0 <= k < j && FirstSighting(cs, since, seen, k) ==> !reply(cs[k])
    ensures ScanBy(cs, since, seen, reply, decide) == decide(cs[j])
    decreases |cs|
  {
    if j > 0 {
      ScanPastNonReply(cs, since, seen, reply, decide);
      FirstSightingShift(cs, since, seen, j);
      assert cs[1..][j - 1] == cs[j];
      NonRepliesShift(cs, since, seen, j, reply);
      ScanByFirstReplyWins(cs[1..], since, SeenAfter(cs[0], since, seen), reply, decide, j - 1);
    }
  }
}
