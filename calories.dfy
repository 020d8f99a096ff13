/** Calorie counting: lines of numbers separated by blank lines are grouped,
    each group is summed, and the solver reports the largest sum (with its
    index) and the sum of the three largest. */
module Calories {
  import opened Errors

  /** One item yielded by the line reader: the text of a line, or a line that
      could not be read. */
  datatype LineRead = Read(text: string) | Unreadable

  /** 2^32: every value `parse::<u32>` accepts is below it. */
  const U32Limit: nat := 0x1_0000_0000

  /** What `unwrap` on a failed `parse::<u32>` panics with. */
  const NotACount := ValidationError("line is not a u32 calorie count")

  /** What `max_by_key(..).unwrap()` on no elves panics with. */
  const NoElves := ValidationError("no elves to compare")

  // ---------------------------------------------------------------------
  // Parsing a calorie count
  // ---------------------------------------------------------------------

  predicate IsDigit(c: char) {
    '0' <= c <= '9'
  }

  predicate AllDigits(s: string) {
    forall i :: 0 <= i < |s| ==> IsDigit(s[i])
  }

  function DigitValue(c: char): nat
    requires IsDigit(c)
  {
    c as int - '0' as int
  }

  /** The number a string of decimal digits denotes, most significant first. */
  function DigitsValue(s: string): nat
    requires AllDigits(s)
  {
    if s == [] then 0 else DigitsValue(s[..|s| - 1]) * 10 + DigitValue(s[|s| - 1])
  }

  /** `str::parse::<u32>`: an optional leading '+', then at least one decimal
      digit, denoting a value below 2^32; anything else is a parse error. */
  function ParseU32(s: string): (r: Option<nat>)
    ensures r.Some? ==> r.value < U32Limit
    ensures r.Some? ==> |s| > 0 && s != "+"
    ensures r.Some? ==> forall i :: 0 <= i < |s| && !IsDigit(s[i]) ==> i == 0 && s[i] == '+'
  {
    var digits := if |s| > 0 && s[0] == '+' then s[1..] else s;
    if digits == [] || !AllDigits(digits) then None
    else
      var v := DigitsValue(digits);
      if v < U32Limit then Some(v) else None
  }

  /** The canonical decimal spelling of `n`, used to state round trips. */
  function Decimal(n: nat): (s: string)
    ensures |s| > 0 && AllDigits(s)
  {
    var last := ('0' as int + n % 10) as char;
    if n < 10 then [last] else Decimal(n / 10) + [last]
  }

  lemma {:induction false} DecimalValue(n: nat)
    ensures DigitsValue(Decimal(n)) == n
  {
    if n >= 10 {
      DecimalValue(n / 10);
      var s := Decimal(n);
      assert s[..|s| - 1] == Decimal(n / 10);
    }
  }

  /** Every u32, written in decimal, parses back to itself. */
  lemma ParseDecimal(n: nat)
    requires n < U32Limit
    ensures ParseU32(Decimal(n)) == Some(n)
  {
    DecimalValue(n);
  }

  // ---------------------------------------------------------------------
  // Grouping (count_calories)
  // ---------------------------------------------------------------------

  /** The grouping loop of `count_calories` from a state in which `cur` is the
      group being read and `groups` the groups already closed. Unreadable
      lines are skipped; a blank line closes a non-empty group; every other
      line (including a blank one while no group is open) must parse. */
  function GroupFrom(lines: seq<LineRead>, cur: seq<nat>, groups: seq<seq<nat>>): Result<seq<seq<nat>>>
    decreases |lines|
  {
    if lines == [] then
      Ok(if |cur| > 0 then groups + [cur] else groups)
    else
      match lines[0]
      case Unreadable => GroupFrom(lines[1..], cur, groups)
      case Read(t) =>
        if t == "" && |cur| > 0 then GroupFrom(lines[1..], [], groups + [cur])
        else
          match ParseU32(t)
          case None => Err(NotACount)
          case Some(v) => GroupFrom(lines[1..], cur + [v], groups)
  }

  /** The groups `count_calories` builds from all of its input. */
  function GroupLines(lines: seq<LineRead>): Result<seq<seq<nat>>> {
    GroupFrom(lines, [], [])
  }

  function Sum(s: seq<nat>): nat {
    if s == [] then 0 else s[0] + Sum(s[1..])
  }

  function Sums(groups: seq<seq<nat>>): seq<nat> {
    seq(|groups|, i requires 0 <= i < |groups| => Sum(groups[i]))
  }

  /** `count_calories`: one sum per group, in input order. */
  method CountCalories(lines: seq<LineRead>) returns (r: Result<seq<nat>>)
    ensures GroupLines(lines).Ok? ==> r == Ok(Sums(GroupLines(lines).value))
    ensures GroupLines(lines).Err? ==> r == Err(GroupLines(lines).error)
  {
    var cur: seq<nat> := [];
    var groups: seq<seq<nat>> := [];
    for i := 0 to |lines|
      invariant GroupFrom(lines[i..], cur, groups) == GroupLines(lines)
    {
      assert lines[i..][1..] == lines[i + 1..];
      match lines[i]
      case Unreadable =>
      case Read(line) =>
        if line == "" && |cur| > 0 {
          groups := groups + [cur];
          cur := [];
        } else {
          var parsed := ParseU32(line);
          if parsed.None? {
            return Err(NotACount);
          }
          cur := cur + [parsed.value];
        }
    }
    assert lines[|lines|..] == [];
    if |cur| > 0 {
      groups := groups + [cur];
    }
    return Ok(Sums(groups));
  }

  // Reference notions the grouping is measured against.

  /** The texts of the readable lines, in order. */
  function Texts(lines: seq<LineRead>): seq<string> {
    if lines == [] then []
    else
      match lines[0]
      case Unreadable => Texts(lines[1..])
      case Read(t) => [t] + Texts(lines[1..])
  }

  /** The values of the readable lines that parse as counts, in order. */
  function Numbers(lines: seq<LineRead>): seq<nat> {
    if lines == [] then []
    else
      var rest := Numbers(lines[1..]);
      match lines[0]
      case Unreadable => rest
      case Read(t) => (match ParseU32(t) case Some(v) => [v] case None => []) + rest
  }

  /** The number of readable blank lines. */
  function Blanks(lines: seq<LineRead>): nat {
    if lines == [] then 0
    else Blanks(lines[1..]) + (if lines[0] == Read("") then 1 else 0)
  }

  /** Whether a group is still open after `lines`, given whether one was open
      before them: that is, whether the last readable line is not blank. */
  function OpenAtEnd(lines: seq<LineRead>, open: bool): bool {
    if lines == [] then open
    else
      match lines[0]
      case Unreadable => OpenAtEnd(lines[1..], open)
      case Read(t) => OpenAtEnd(lines[1..], t != "")
  }

  function Flatten(groups: seq<seq<nat>>): seq<nat> {
    if groups == [] then [] else Flatten(groups[..|groups| - 1]) + groups[|groups| - 1]
  }

  predicate AllNonEmpty(groups: seq<seq<nat>>) {
    forall i :: 0 <= i < |groups| ==> |groups[i]| > 0
  }

  /** A readable line the grouping rejects, given whether the current group
      is empty when it is read. */
  predicate BadLine(t: string, groupEmpty: bool) {
    if t == "" then groupEmpty else ParseU32(t).None?
  }

  /** The readable line at index `i` is rejected: the current group is empty
      there exactly when `i` is the first line and no group was open before
      `texts`, or the line before it is blank. */
  predicate BadAt(texts: seq<string>, startEmpty: bool, i: nat)
    requires i < |texts|
  {
    BadLine(texts[i], if i == 0 then startEmpty else texts[i - 1] == "")
  }

  /** Some readable line is rejected: a non-blank line that is not a count,
      or a blank line that is the first readable line (when no group is open
      before `texts`) or follows another blank line. */
  predicate Malformed(texts: seq<string>, startEmpty: bool) {
    exists i :: 0 <= i < |texts| && BadAt(texts, startEmpty, i)
  }

  lemma {:induction false} GroupFromNonEmpty(lines: seq<LineRead>, cur: seq<nat>, groups: seq<seq<nat>>, gs: seq<seq<nat>>)
    requires AllNonEmpty(groups)
    requires GroupFrom(lines, cur, groups) == Ok(gs)
    ensures AllNonEmpty(gs)
    decreases |lines|
  {
    if lines != [] {
      match lines[0]
      case Unreadable =>
        GroupFromNonEmpty(lines[1..], cur, groups, gs);
      case Read(t) =>
        if t == "" && |cur| > 0 {
          GroupFromNonEmpty(lines[1..], [], groups + [cur], gs);
        } else {
          GroupFromNonEmpty(lines[1..], cur + [ParseU32(t).value], groups, gs);
        }
    }
  }

  lemma {:induction false} GroupFromFlatten(lines: seq<LineRead>, cur: seq<nat>, groups: seq<seq<nat>>, gs: seq<seq<nat>>)
    requires GroupFrom(lines, cur, groups) == Ok(gs)
    ensures Flatten(gs) == Flatten(groups) + cur + Numbers(lines)
    decreases |lines|
  {
    if lines == [] {
      if |cur| > 0 {
        assert (groups + [cur])[..|groups|] == groups;
      }
    } else {
      match lines[0]
      case Unreadable =>
        GroupFromFlatten(lines[1..], cur, groups, gs);
      case Read(t) =>
        if t == "" && |cur| > 0 {
          assert (groups + [cur])[..|groups|] == groups;
          GroupFromFlatten(lines[1..], [], groups + [cur], gs);
        } else {
          var v := ParseU32(t).value;
          GroupFromFlatten(lines[1..], cur + [v], groups, gs);
        }
    }
  }

  lemma {:induction false} GroupFromCount(lines: seq<LineRead>, cur: seq<nat>, groups: seq<seq<nat>>, gs: seq<seq<nat>>)
    requires GroupFrom(lines, cur, groups) == Ok(gs)
    ensures |gs| == |groups| + Blanks(lines) + (if OpenAtEnd(lines, |cur| > 0) then 1 else 0)
    decreases |lines|
  {
    if lines != [] {
      match lines[0]
      case Unreadable =>
        GroupFromCount(lines[1..], cur, groups, gs);
      case Read(t) =>
        if t == "" && |cur| > 0 {
          GroupFromCount(lines[1..], [], groups + [cur], gs);
        } else {
          GroupFromCount(lines[1..], cur + [ParseU32(t).value], groups, gs);
        }
    }
  }

  /** Every group `count_calories` emits is non-empty. */
  lemma GroupsNonEmpty(lines: seq<LineRead>)
    requires GroupLines(lines).Ok?
    ensures AllNonEmpty(GroupLines(lines).value)
  {
    GroupFromNonEmpty(lines, [], [], GroupLines(lines).value);
  }

  /** Grouping keeps every count, in input order: concatenating the groups
      gives back the counts of the input lines. */
  lemma GroupsKeepOrder(lines: seq<LineRead>)
    requires GroupLines(lines).Ok?
    ensures Flatten(GroupLines(lines).value) == Numbers(lines)
  {
    GroupFromFlatten(lines, [], [], GroupLines(lines).value);
  }

  /** One group per blank line that closes it, plus the final group when the
      input does not end in a blank line (it is flushed at end of input). */
  lemma GroupsCount(lines: seq<LineRead>)
    requires GroupLines(lines).Ok?
    ensures |GroupLines(lines).value| == Blanks(lines) + (if OpenAtEnd(lines, false) then 1 else 0)
  {
    GroupFromCount(lines, [], [], GroupLines(lines).value);
  }

  lemma {:induction false} MalformedCons(t: string, texts: seq<string>, startEmpty: bool)
    ensures Malformed([t] + texts, startEmpty) <==> BadLine(t, startEmpty) || Malformed(texts, t == "")
  {
    var all := [t] + texts;
    if Malformed(all, startEmpty) && !BadLine(t, startEmpty) {
      var i :| 0 <= i < |all| && BadAt(all, startEmpty, i);
      assert i > 0;
      assert BadAt(texts, t == "", i - 1);
    }
    if Malformed(texts, t == "") {
      var i :| 0 <= i < |texts| && BadAt(texts, t == "", i);
      assert BadAt(all, startEmpty, i + 1);
    }
    if BadLine(t, startEmpty) {
      assert BadAt(all, startEmpty, 0);
    }
  }

  lemma {:induction false} GroupFromFails(lines: seq<LineRead>, cur: seq<nat>, groups: seq<seq<nat>>)
    ensures GroupFrom(lines, cur, groups).Err? <==> Malformed(Texts(lines), |cur| == 0)
    ensures GroupFrom(lines, cur, groups).Err? ==> GroupFrom(lines, cur, groups).error == NotACount
    decreases |lines|
  {
    if lines != [] {
      match lines[0]
      case Unreadable =>
        GroupFromFails(lines[1..], cur, groups);
      case Read(t) =>
        MalformedCons(t, Texts(lines[1..]), |cur| == 0);
        if t == "" && |cur| > 0 {
          GroupFromFails(lines[1..], [], groups + [cur]);
        } else if ParseU32(t).Some? {
          GroupFromFails(lines[1..], cur + [ParseU32(t).value], groups);
        }
    }
  }

  /** `count_calories` panics exactly when some readable line is rejected. */
  lemma GroupsFailIff(lines: seq<LineRead>)
    ensures GroupLines(lines).Err? <==> Malformed(Texts(lines), true)
    ensures GroupLines(lines).Err? ==> GroupLines(lines).error == NotACount
  {
    GroupFromFails(lines, [], []);
  }

  lemma {:induction false} SkipUnreadableFrom(pre: seq<LineRead>, post: seq<LineRead>, cur: seq<nat>, groups: seq<seq<nat>>)
    ensures GroupFrom(pre + [Unreadable] + post, cur, groups) == GroupFrom(pre + post, cur, groups)
    decreases |pre|
  {
    if pre == [] {
      assert pre + [Unreadable] + post == [Unreadable] + post;
      assert pre + post == post;
      assert ([Unreadable] + post)[1..] == post;
    } else {
      assert (pre + [Unreadable] + post)[1..] == pre[1..] + [Unreadable] + post;
      assert (pre + post)[1..] == pre[1..] + post;
      match pre[0]
      case Unreadable =>
        SkipUnreadableFrom(pre[1..], post, cur, groups);
      case Read(t) =>
        if t == "" && |cur| > 0 {
          SkipUnreadableFrom(pre[1..], post, [], groups + [cur]);
        } else if ParseU32(t).Some? {
          SkipUnreadableFrom(pre[1..], post, cur + [ParseU32(t).value], groups);
        }
    }
  }

  /** An unreadable line, wherever it occurs, changes nothing. */
  lemma UnreadableIgnored(pre: seq<LineRead>, post: seq<LineRead>)
    ensures GroupLines(pre + [Unreadable] + post) == GroupLines(pre + post)
  {
    SkipUnreadableFrom(pre, post, [], []);
  }

  // Round trip: rendering groups as the puzzle's input format and grouping
  // the result gives the groups back.

  /** One line per count, in decimal. */
  function GroupText(group: seq<nat>): seq<LineRead> {
    if group == [] then [] else [Read(Decimal(group[0]))] + GroupText(group[1..])
  }

  /** The groups, one count per line, separated by single blank lines. */
  function Render(groups: seq<seq<nat>>): seq<LineRead> {
    if groups == [] then []
    else if |groups| == 1 then GroupText(groups[0])
    else GroupText(groups[0]) + ([Read("")] + Render(groups[1..]))
  }

  predicate Renderable(groups: seq<seq<nat>>) {
    forall i :: 0 <= i < |groups| ==> |groups[i]| > 0 && forall j :: 0 <= j < |groups[i]| ==> groups[i][j] < U32Limit
  }

  lemma {:induction false} GroupTextFrom(group: seq<nat>, tail: seq<LineRead>, cur: seq<nat>, groups: seq<seq<nat>>)
    requires forall j :: 0 <= j < |group| ==> group[j] < U32Limit
    ensures GroupFrom(GroupText(group) + tail, cur, groups) == GroupFrom(tail, cur + group, groups)
    decreases |group|
  {
    if group == [] {
      assert GroupText(group) + tail == tail;
      assert cur + group == cur;
    } else {
      var all := GroupText(group) + tail;
      assert all[0] == Read(Decimal(group[0]));
      assert all[1..] == GroupText(group[1..]) + tail;
      ParseDecimal(group[0]);
      GroupTextFrom(group[1..], tail, cur + [group[0]], groups);
      assert cur + [group[0]] + group[1..] == cur + group;
    }
  }

  lemma {:induction false} RenderFrom(gs: seq<seq<nat>>, groups: seq<seq<nat>>)
    requires Renderable(gs)
    ensures GroupFrom(Render(gs), [], groups) == Ok(groups + gs)
    decreases |gs|
  {
    if gs == [] {
      assert groups + gs == groups;
    } else if |gs| == 1 {
      GroupTextFrom(gs[0], [], [], groups);
      assert GroupText(gs[0]) + [] == GroupText(gs[0]);
      assert [] + gs[0] == gs[0];
      assert groups + gs == groups + [gs[0]];
    } else {
      var rest := [Read("")] + Render(gs[1..]);
      GroupTextFrom(gs[0], rest, [], groups);
      assert [] + gs[0] == gs[0];
      assert rest[1..] == Render(gs[1..]);
      RenderFrom(gs[1..], groups + [gs[0]]);
      assert groups + [gs[0]] + gs[1..] == groups + gs;
    }
  }

  /** Grouping inverts rendering, for non-empty groups of u32 counts. */
  lemma RenderRoundTrip(gs: seq<seq<nat>>)
    requires Renderable(gs)
    ensures GroupLines(Render(gs)) == Ok(gs)
  {
    RenderFrom(gs, []);
    assert [] + gs == gs;
  }

  // ---------------------------------------------------------------------
  // The elf with the most calories (find_elf_with_most_calories)
  // ---------------------------------------------------------------------

  /** Index of the maximum that `max_by_key` picks: among equal maxima, the
      LAST one. */
  function LastMaxIndex(s: seq<nat>): (k: nat)
    requires |s| > 0
    ensures k < |s|
    ensures forall j :: 0 <= j < |s| ==> s[j] <= s[k]
    ensures forall j :: k < j < |s| ==> s[j] < s[k]
  {
    if |s| == 1 then 0
    else
      var k := LastMaxIndex(s[..|s| - 1]);
      if s[|s| - 1] >= s[k] then |s| - 1 else k
  }

  /** `find_elf_with_most_calories`: the index and value of the largest sum. */
  function MostCalories(calories: seq<nat>): (r: Result<(nat, nat)>)
    ensures r.Err? <==> |calories| == 0
    ensures r.Err? ==> r.error == NoElves
    ensures r.Ok? ==> r.value.0 < |calories| && r.value.1 == calories[r.value.0]
    ensures r.Ok? ==> forall j :: 0 <= j < |calories| ==> calories[j] <= r.value.1
    ensures r.Ok? ==> forall j :: r.value.0 < j < |calories| ==> calories[j] < r.value.1
  {
    if |calories| == 0 then Err(NoElves)
    else
      var k := LastMaxIndex(calories);
      Ok((k, calories[k]))
  }

  // ---------------------------------------------------------------------
  // The three largest sums (find_top_three)
  // ---------------------------------------------------------------------

  predicate SortedDesc(s: seq<nat>) {
    forall p, q :: 0 <= p < q < |s| ==> s[p] >= s[q]
  }

  method Swap(a: array<nat>, i: nat, j: nat)
    requires i < a.Length && j < a.Length
    modifies a
    ensures a[i] == old(a[j]) && a[j] == old(a[i])
    ensures forall k :: 0 <= k < a.Length && k != i && k != j ==> a[k] == old(a[k])
    ensures multiset(a[..]) == multiset(old(a[..]))
  {
    a[i], a[j] := a[j], a[i];
  }

  /** `sort_by(|a, b| b.cmp(a))`: sorts in place into non-increasing order. */
  method SortDescending(a: array<nat>)
    modifies a
    ensures SortedDesc(a[..])
    ensures multiset(a[..]) == multiset(old(a[..]))
  {
    var i := 0;
    while i < a.Length
      invariant 0 <= i <= a.Length
      invariant forall p, q :: 0 <= p < q < i ==> a[p] >= a[q]
      invariant multiset(a[..]) == multiset(old(a[..]))
    {
      var j := i;
      while j > 0 && a[j - 1] < a[j]
        invariant 0 <= j <= i
        invariant forall p, q :: 0 <= p < q <= i && p != j && q != j ==> a[p] >= a[q]
        invariant forall q :: j < q <= i ==> a[j] > a[q]
        invariant multiset(a[..]) == multiset(old(a[..]))
      {
        Swap(a, j - 1, j);
        j := j - 1;
      }
      i := i + 1;
    }
  }

  function Min(x: nat, y: nat): nat {
    if x <= y then x else y
  }

  /** `find_top_three`: sorts `calories` in place (largest first) and sums
      the first three of them, or all of them when there are fewer. */
  method FindTopThree(calories: array<nat>) returns (total: nat)
    modifies calories
    ensures SortedDesc(calories[..])
    ensures multiset(calories[..]) == multiset(old(calories[..]))
    ensures total == Sum(calories[..Min(3, calories.Length)])
    ensures calories.Length <= 3 ==> total == Sum(old(calories[..]))
  {
    SortDescending(calories);
    total := Sum(calories[..Min(3, calories.Length)]);
    if calories.Length <= 3 {
      assert calories[..Min(3, calories.Length)] == calories[..];
      SumPermutation(calories[..], old(calories[..]));
    }
  }

  lemma {:induction false} SumConcat(s: seq<nat>, t: seq<nat>)
    ensures Sum(s + t) == Sum(s) + Sum(t)
    decreases |s|
  {
    if s == [] {
      assert s + t == t;
    } else {
      assert (s + t)[1..] == s[1..] + t;
      SumConcat(s[1..], t);
    }
  }

  lemma MultisetCons(s: seq<nat>)
    requires |s| > 0
    ensures multiset(s[1..]) == multiset(s) - multiset{s[0]}
  {
    assert s == [s[0]] + s[1..];
  }

  lemma MultisetDrop(t: seq<nat>, i: nat)
    requires i < |t|
    ensures multiset(t[..i] + t[i + 1..]) == multiset(t) - multiset{t[i]}
  {
    assert t == t[..i] + [t[i]] + t[i + 1..];
  }

  /** A sum does not depend on the order of its terms. */
  lemma {:induction false} SumPermutation(s: seq<nat>, t: seq<nat>)
    requires multiset(s) == multiset(t)
    ensures Sum(s) == Sum(t)
    decreases |s|
  {
    if s == [] {
      assert |t| == |multiset(t)| == 0;
    } else {
      assert s[0] in multiset(t);
      var i :| 0 <= i < |t| && t[i] == s[0];
      var rest := t[..i] + t[i + 1..];
      MultisetCons(s);
      MultisetDrop(t, i);
      SumPermutation(s[1..], rest);
      var tail := [t[i]] + t[i + 1..];
      assert t == t[..i] + tail;
      SumConcat(t[..i], tail);
      SumConcat(t[..i], t[i + 1..]);
      assert tail[1..] == t[i + 1..];
    }
  }

  lemma SortedHeadIsMax(s: seq<nat>, x: nat)
    requires SortedDesc(s)
    requires x in s
    ensures s[0] >= x
  {
    var i :| 0 <= i < |s| && s[i] == x;
    if i > 0 {
      assert s[0] >= s[i];
    }
  }

  lemma SortedTail(s: seq<nat>)
    requires SortedDesc(s) && |s| > 0
    ensures SortedDesc(s[1..])
  {
    forall p, q | 0 <= p < q < |s| - 1
      ensures s[1..][p] >= s[1..][q]
    {
      assert s[1..][p] == s[p + 1] && s[1..][q] == s[q + 1];
    }
  }

  /** A sorted order is determined by its elements, so the total of
      `find_top_three` depends only on the multiset of sums. */
  lemma {:induction false} SortedUnique(s: seq<nat>, t: seq<nat>)
    requires SortedDesc(s) && SortedDesc(t)
    requires multiset(s) == multiset(t)
    ensures s == t
    decreases |s|
  {
    assert |t| == |multiset(t)| == |multiset(s)| == |s|;
    if s != [] {
      assert s[0] in t by {
        assert s[0] in multiset(s);
      }
      assert t[0] in s by {
        assert t[0] in multiset(t);
      }
      SortedHeadIsMax(t, s[0]);
      SortedHeadIsMax(s, t[0]);
      assert s[0] == t[0];
      MultisetCons(s);
      MultisetCons(t);
      assert multiset(s[1..]) == multiset(t[1..]);
      SortedTail(s);
      SortedTail(t);
      SortedUnique(s[1..], t[1..]);
      assert s == [s[0]] + s[1..];
      assert t == [t[0]] + t[1..];
    }
  }

  lemma SumOfThree(a: nat, b: nat, c: nat)
    ensures Sum([a, b, c]) == a + b + c
  {
    assert [a, b, c][1..] == [b, c];
    assert [b, c][1..] == [c];
    assert [c][1..] == [];
    assert Sum([c]) == c;
    assert Sum([b, c]) == b + c;
  }

  /** In a non-increasing sequence no three elements add up to more than
      the first three: the total is the sum of the three largest. */
  lemma TopThreeDominates(s: seq<nat>, i: nat, j: nat, k: nat)
    requires SortedDesc(s)
    requires i < j < k < |s|
    ensures s[i] + s[j] + s[k] <= Sum(s[..3])
  {
    assert s[..3] == [s[0], s[1], s[2]];
    SumOfThree(s[0], s[1], s[2]);
  }

  // ---------------------------------------------------------------------
  // The example of the tests
  // ---------------------------------------------------------------------

  const SmallExample: seq<seq<nat>> :=
    [[1000, 2000, 3000], [4000], [5000, 6000], [7000, 8000, 9000], [10000]]

  /** The small example, written in the input format, groups back into its
      five groups. */
  lemma SmallExampleGroups(gs: seq<seq<nat>>)
    requires gs == SmallExample
    ensures GroupLines(Render(gs)) == Ok(SmallExample)
  {
    RenderRoundTrip(gs);
  }

  /** The five groups sum to 6000, 4000, 11000, 24000 and 10000. */
  lemma SmallExampleSums()
    ensures Sums(SmallExample) == [6000, 4000, 11000, 24000, 10000]
  {
    SumOfThree(1000, 2000, 3000);
    SumOfThree(7000, 8000, 9000);
    assert Sum([5000, 6000]) == 11000 by {
      assert [5000, 6000][1..] == [6000];
    }
  }

  /** The fourth elf (index 3) carries the most, 24000. */
  lemma SmallExampleMost()
    ensures MostCalories([6000, 4000, 11000, 24000, 10000]) == Ok((3, 24000))
  {
  }

  /** However the example sums are sorted, the top three add up to 45000. */
  lemma SmallExampleTopThree(s: seq<nat>)
    requires SortedDesc(s)
    requires multiset(s) == multiset([6000, 4000, 11000, 24000, 10000])
    ensures Sum(s[..3]) == 45000
  {
    var sorted := [24000, 11000, 10000, 6000, 4000];
    assert multiset(sorted) == multiset([6000, 4000, 11000, 24000, 10000]);
    SortedUnique(s, sorted);
    assert s[..3] == [24000, 11000, 10000];
    SumOfThree(24000, 11000, 10000);
  }
}
