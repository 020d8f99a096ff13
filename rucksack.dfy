/** Rucksack priorities: every letter has a priority; part one finds the item
    that both halves of a line share, part two the badge that all three
    lines of a group share. Lines are ASCII, as in the puzzle's input. */
module Rucksack {
  import opened Errors

  /** What part one reports for a line of odd length. */
  const OddLength := ValidationError("Line must have even amount of elements")

  /** What indexing the empty vector of shared items (`doubles[0]`) panics with. */
  const NoSharedItem := ValidationError("no item is in both compartments")

  /** What reading past the last line of a group of three panics with. */
  const IncompleteGroup := ValidationError("the last group has fewer than three lines")

  /** What indexing the empty vector of count-3 items (`badge[0]`) panics with. */
  const NoBadge := ValidationError("no item is in all three rucksacks")

  predicate IsAscii(s: string) {
    forall i :: 0 <= i < |s| ==> s[i] < 128 as char
  }

  predicate IsLetter(c: char) {
    'a' <= c <= 'z' || 'A' <= c <= 'Z'
  }

  // ---------------------------------------------------------------------
  // Priorities (value)
  // ---------------------------------------------------------------------

  /** `value`: 'a'..'z' have priorities 1..26, 'A'..'Z' have 27..52, and
      every other character has none. */
  function Priority(c: char): (r: Option<nat>)
    ensures r.Some? <==> IsLetter(c)
    ensures r.Some? ==> 1 <= r.value <= 52
    ensures r.Some? ==> (r.value <= 26 <==> 'a' <= c <= 'z')
  {
    var ascii := c as int;
    if 65 <= ascii <= 90 then Some(ascii - 64 + 26)
    else if 97 <= ascii <= 122 then Some(ascii - 96)
    else None
  }

  /** The letter of a priority: the inverse of `Priority`. */
  function Letter(p: nat): (c: char)
    requires 1 <= p <= 52
  {
    if p <= 26 then ('a' as int + p - 1) as char else ('A' as int + p - 27) as char
  }

  /** `Letter` and `Priority` are inverse bijections between the 52 letters
      and the priorities 1..52. */
  lemma PriorityLetter(p: nat)
    requires 1 <= p <= 52
    ensures Priority(Letter(p)) == Some(p)
  {
  }

  lemma LetterPriority(c: char)
    requires IsLetter(c)
    ensures Letter(Priority(c).value) == c
  {
  }

  /** Different letters have different priorities. */
  lemma PriorityInjective(c: char, d: char)
    requires IsLetter(c) && Priority(c) == Priority(d)
    ensures c == d
  {
    LetterPriority(c);
    LetterPriority(d);
  }

  lemma PriorityEnds()
    ensures Priority('a') == Some(1) && Priority('z') == Some(26)
    ensures Priority('A') == Some(27) && Priority('Z') == Some(52)
  {
  }

  // ---------------------------------------------------------------------
  // Part one (process_line_part_one)
  // ---------------------------------------------------------------------

  /** An item of the second half that the first half also holds and that
      has a priority. */
  predicate Shared(first: string, c: char) {
    c in first && IsLetter(c)
  }

  /** The pipeline `comp_2.chars().filter(in comp_1).filter_map(value)`:
      the priorities of the shared items of `second`, in order. */
  function Doubles(first: string, second: string): (r: seq<nat>)
    ensures |r| <= |second|
    ensures forall k :: 0 <= k < |r| ==> 1 <= r[k] <= 52
  {
    if second == [] then []
    else
      var rest := Doubles(first, second[1..]);
      if second[0] in first && Priority(second[0]).Some? then [Priority(second[0]).value] + rest else rest
  }

  lemma {:induction false} DoublesEmpty(first: string, second: string)
    ensures Doubles(first, second) == [] <==> forall j :: 0 <= j < |second| ==> !Shared(first, second[j])
  {
    if second != [] {
      DoublesEmpty(first, second[1..]);
      assert forall j :: 1 <= j < |second| ==> second[j] == second[1..][j - 1];
    }
  }

  /** The first of `Doubles` is the priority of the first shared item. */
  lemma {:induction false} DoublesHead(first: string, second: string) returns (j: nat)
    requires Doubles(first, second) != []
    ensures j < |second| && Shared(first, second[j])
    ensures Priority(second[j]) == Some(Doubles(first, second)[0])
    ensures forall k :: 0 <= k < j ==> !Shared(first, second[k])
  {
    if Shared(first, second[0]) {
      j := 0;
    } else {
      var j' := DoublesHead(first, second[1..]);
      j := j' + 1;
      assert forall k :: 1 <= k < j ==> second[k] == second[1..][k - 1];
    }
  }

  /** `process_line_part_one`: splits an even-length line into two halves
      and reports the priority of the first item of the second half that is
      also in the first. */
  function ProcessLinePartOne(line: string): (r: Result<nat>)
    requires IsAscii(line)
    ensures |line| % 2 != 0 ==> r == Err(OddLength)
    ensures r.Ok? ==> 1 <= r.value <= 52
    ensures r.Err? ==> r == Err(OddLength) || r == Err(NoSharedItem)
  {
    if |line| % 2 != 0 then Err(OddLength)
    else
      var compSize := |line| / 2;
      var comp1 := line[..compSize];
      var comp2 := line[compSize..];
      var doubles := Doubles(comp1, comp2);
      if doubles == [] then Err(NoSharedItem)
      else Ok(doubles[0])
  }

  /** The two halves of an even-length line have equal length and make up
      the line. */
  lemma HalvesSplitLine(line: string)
    requires |line| % 2 == 0
    ensures |line[..|line| / 2]| == |line[|line| / 2..]|
    ensures line[..|line| / 2] + line[|line| / 2..] == line
  {
  }

  /** Part one succeeds exactly on even-length lines whose second half holds
      a letter of the first half, and then reports the priority of the
      first such letter. */
  lemma PartOneCharacterized(line: string)
    requires IsAscii(line) && |line| % 2 == 0
    ensures ProcessLinePartOne(line).Err? <==>
      forall j :: |line| / 2 <= j < |line| ==> !Shared(line[..|line| / 2], line[j])
    ensures ProcessLinePartOne(line).Ok? ==>
      exists j :: |line| / 2 <= j < |line| && Shared(line[..|line| / 2], line[j]) &&
        Priority(line[j]) == Some(ProcessLinePartOne(line).value) &&
        forall k :: |line| / 2 <= k < j ==> !Shared(line[..|line| / 2], line[k])
  {
    var n := |line| / 2;
    var first, second := line[..n], line[n..];
    assert forall j :: n <= j < |line| ==> line[j] == second[j - n];
    DoublesEmpty(first, second);
    if Doubles(first, second) != [] {
      var j := DoublesHead(first, second);
      assert line[n + j] == second[j];
      assert forall k :: n <= k < n + j ==> !Shared(first, line[k]) by {
        forall k | n <= k < n + j
          ensures !Shared(first, line[k])
        {
          assert line[k] == second[k - n];
        }
      }
    }
  }

  // ---------------------------------------------------------------------
  // Part two (count_chars and the badge loop of process_part_two)
  // ---------------------------------------------------------------------

  /** The count of `c` in a tally, 0 when it has none. */
  function Count(counts: map<char, nat>, c: char): nat {
    if c in counts then counts[c] else 0
  }

  /** The distinct characters of `s`, each once. The source sorts before it
      removes duplicates; the order does not matter to the tally. */
  function Dedup(s: seq<char>): (d: seq<char>)
    ensures forall c :: c in d <==> c in s
    ensures forall i, j :: 0 <= i < j < |d| ==> d[i] != d[j]
  {
    if s == [] then []
    else if s[|s| - 1] in s[..|s| - 1] then Dedup(s[..|s| - 1])
    else Dedup(s[..|s| - 1]) + [s[|s| - 1]]
  }

  /** `count_chars`: every distinct character of `line` has its count raised
      by exactly one (a new one starts at 1), however often it occurs; every
      other count is unchanged. */
  method CountChars(line: seq<char>, counts: map<char, nat>) returns (updated: map<char, nat>)
    ensures forall c :: c in updated <==> c in counts || c in line
    ensures forall c :: c in updated ==> updated[c] == Count(counts, c) + (if c in line then 1 else 0)
  {
    var distinct := Dedup(line);
    updated := counts;
    for i := 0 to |distinct|
      invariant forall c :: c in updated <==> c in counts || c in distinct[..i]
      invariant forall c :: c in updated ==> updated[c] == Count(counts, c) + (if c in distinct[..i] then 1 else 0)
    {
      var c := distinct[i];
      assert distinct[..i + 1] == distinct[..i] + [c];
      updated := updated[c := Count(updated, c) + 1];
    }
    assert distinct[..|distinct|] == distinct;
  }

  predicate InAllThree(c: char, first: string, second: string, third: string) {
    c in first && c in second && c in third
  }

  /** The three `count_chars` calls of one group, from an empty map: a count
      is 3 exactly for the items all three lines hold, and no count
      exceeds 3. */
  method BadgeCounts(first: string, second: string, third: string) returns (counts: map<char, nat>)
    ensures forall c :: c in counts <==> c in first || c in second || c in third
    ensures forall c :: c in counts ==> 1 <= counts[c] <= 3
    ensures forall c :: c in counts ==> (counts[c] == 3 <==> InAllThree(c, first, second, third))
  {
    counts := CountChars(first, map[]);
    counts := CountChars(second, counts);
    counts := CountChars(third, counts);
  }

  /** `filter_map(value)` over the badges: the priorities of those that are
      letters, in order. */
  function Priorities(badges: seq<char>): seq<nat> {
    if badges == [] then []
    else (match Priority(badges[0]) case Some(p) => [p] case None => []) + Priorities(badges[1..])
  }

  lemma {:induction false} PrioritiesOfLetters(badges: seq<char>)
    requires forall k :: 0 <= k < |badges| ==> IsLetter(badges[k])
    ensures |Priorities(badges)| == |badges|
    ensures forall k :: 0 <= k < |badges| ==> Priorities(badges)[k] == Priority(badges[k]).value
  {
    if badges != [] {
      PrioritiesOfLetters(badges[1..]);
    }
  }

  predicate NoCommonItem(first: string, second: string, third: string) {
    forall c :: !InAllThree(c, first, second, third)
  }

  /** Group `k` (lines 3k, 3k+1, 3k+2) has no item common to all three. */
  predicate HasNoBadge(lines: seq<string>, k: nat)
    requires 3 * k + 2 < |lines|
  {
    NoCommonItem(lines[3 * k], lines[3 * k + 1], lines[3 * k + 2])
  }

  /** The loop of `process_part_two`: for each group of three lines, some
      item with count 3 is its badge (the source takes the first its hash map
      yields, so any may be chosen), and the result is the priorities of the
      badges. A last group with fewer than three lines, or a group with no
      common item, makes the source panic; here it is an error. `badges`
      is the vector the source builds. */
  method ProcessPartTwo(lines: seq<string>) returns (r: Result<seq<nat>>, ghost badges: seq<char>)
    ensures r.Err? <==> |lines| % 3 != 0 || exists k :: 0 <= k < |lines| / 3 && HasNoBadge(lines, k)
    ensures r.Err? ==> r == Err(IncompleteGroup) || r == Err(NoBadge)
    ensures r.Ok? ==> |badges| == |lines| / 3
    ensures r.Ok? ==> forall k :: 0 <= k < |badges| ==>
      InAllThree(badges[k], lines[3 * k], lines[3 * k + 1], lines[3 * k + 2])
    ensures r.Ok? ==> r.value == Priorities(badges)
  {
    var found: seq<char> := [];
    var i := 0;
    while i < |lines|
      invariant i == 3 * |found| && i <= |lines|
      invariant forall k :: 0 <= k < |found| ==>
        InAllThree(found[k], lines[3 * k], lines[3 * k + 1], lines[3 * k + 2])
      invariant forall k :: 0 <= k < |found| ==> !HasNoBadge(lines, k)
    {
      if i + 2 >= |lines| {
        return Err(IncompleteGroup), found;
      }
      var counts := BadgeCounts(lines[i], lines[i + 1], lines[i + 2]);
      if !exists c :: c in counts && counts[c] == 3 {
        assert HasNoBadge(lines, |found|);
        return Err(NoBadge), found;
      }
      var badge :| badge in counts && counts[badge] == 3;
      found := found + [badge];
      i := i + 3;
    }
    return Ok(Priorities(found)), found;
  }

  // ---------------------------------------------------------------------
  // The examples of the tests
  // ---------------------------------------------------------------------

  /** Items that are not shared do not contribute to `Doubles`. */
  lemma {:induction false} DoublesSkip(first: string, skipped: string, rest: string)
    requires forall c :: c in skipped ==> !Shared(first, c)
    ensures Doubles(first, skipped + rest) == Doubles(first, rest)
    decreases |skipped|
  {
    if skipped == [] {
      assert skipped + rest == rest;
    } else {
      assert skipped[0] in skipped;
      assert (skipped + rest)[0] == skipped[0];
      assert (skipped + rest)[1..] == skipped[1..] + rest;
      DoublesSkip(first, skipped[1..], rest);
    }
  }

  /** A line whose second half starts, after items the first half does not
      hold, with a letter the first half holds, scores that letter. */
  lemma PartOneFirstShared(first: string, second: string, skipped: string, shared: char, tail: string)
    requires IsAscii(first) && IsAscii(second) && |first| == |second|
    requires second == skipped + [shared] + tail
    requires shared in first && IsLetter(shared)
    requires forall c :: c in skipped ==> c !in first
    ensures ProcessLinePartOne(first + second) == Ok(Priority(shared).value)
  {
    var line := first + second;
    assert IsAscii(line) by {
      assert forall i :: |first| <= i < |line| ==> line[i] == second[i - |first|];
    }
    assert line[..|line| / 2] == first;
    assert line[|line| / 2..] == second;
    assert skipped + [shared] + tail == skipped + ([shared] + tail);
    DoublesSkip(first, skipped, [shared] + tail);
    assert ([shared] + tail)[1..] == tail;
  }

  /** The six sample rucksacks of the tests score 16, 38, 42, 22, 20 and 19
      (157 in all); the shared item is 'p', 'L', 'P', 'v', 't' and 's'. Each
      line is written as its two halves. */
  lemma SampleLine1PartOne()
    ensures ProcessLinePartOne("vJrwpWtwJgWr" + "hcsFMMfFFhFp") == Ok(16)
  {
    PartOneFirstShared("vJrwpWtwJgWr", "hcsFMMfFFhFp", "hcsFMMfFFhF", 'p', "");
  }

  lemma SampleLine2PartOne()
    ensures ProcessLinePartOne("jqHRNqRjqzjGDLGL" + "rsFMfFZSrLrFZsSL") == Ok(38)
  {
    PartOneFirstShared("jqHRNqRjqzjGDLGL", "rsFMfFZSrLrFZsSL", "rsFMfFZSr", 'L', "rFZsSL");
  }

  lemma SampleLine3PartOne()
    ensures ProcessLinePartOne("PmmdzqPrV" + "vPwwTWBwg") == Ok(42)
  {
    PartOneFirstShared("PmmdzqPrV", "vPwwTWBwg", "v", 'P', "wwTWBwg");
  }

  lemma SampleLine4PartOne()
    ensures ProcessLinePartOne("wMqvLMZHhHMvwLH" + "jbvcjnnSBnvTQFn") == Ok(22)
  {
    PartOneFirstShared("wMqvLMZHhHMvwLH", "jbvcjnnSBnvTQFn", "jb", 'v', "cjnnSBnvTQFn");
  }

  lemma SampleLine5PartOne()
    ensures ProcessLinePartOne("ttgJtRGJ" + "QctTZtZT") == Ok(20)
  {
    PartOneFirstShared("ttgJtRGJ", "QctTZtZT", "Qc", 't', "TZtZT");
  }

  lemma SampleLine6PartOne()
    ensures ProcessLinePartOne("CrZsJsPPZsGz" + "wwsLwLmpwMDw") == Ok(19)
  {
    PartOneFirstShared("CrZsJsPPZsGz", "wwsLwLmpwMDw", "ww", 's', "LwLmpwMDw");
  }

  const SampleGroups: seq<string> := [
    "vJrwpWtwJgWrhcsFMMfFFhFp",
    "jqHRNqRjqzjGDLGLrsFMfFZSrLrFZsSL",
    "PmmdzqPrVvPwwTWBwg",
    "wMqvLMZHhHMvwLHjbvcjnnSBnvTQFn",
    "ttgJtRGJQctTZtZT",
    "CrZsJsPPZsGzwwsLwLmpwMDw"
  ]

  /** `c` is in `alphabet` when every character of `s` is and `c` is in `s`. */
  lemma Narrow(c: char, s: string, alphabet: string)
    requires c in s
    requires forall i :: 0 <= i < |s| ==> s[i] in alphabet
    ensures c in alphabet
  {
  }

  /** `c`, in both `s` and `t`, is in `common` when every item of `s` that
      `t` also holds is. */
  lemma Intersect(c: char, s: string, t: string, common: string)
    requires c in s && c in t
    requires forall i :: 0 <= i < |s| && s[i] in t ==> s[i] in common
    ensures c in common
  {
  }

  // The items of the sample groups, one fact per lemma to keep each proof small.

  lemma FirstGroupItems()
    ensures forall i :: 0 <= i < |SampleGroups[0]| ==> SampleGroups[0][i] in "vJrwpWtghcsFMf"
  {
  }

  lemma FirstGroupWithThird()
    ensures forall i :: 0 <= i < |"vJrwpWtghcsFMf"| && "vJrwpWtghcsFMf"[i] in SampleGroups[2] ==>
      "vJrwpWtghcsFMf"[i] in "vrwWg"
  {
  }

  lemma FirstGroupWithSecond()
    ensures forall i :: 0 <= i < |"vrwWg"| && "vrwWg"[i] in SampleGroups[1] ==> "vrwWg"[i] in "r"
  {
  }

  lemma SecondGroupItems()
    ensures forall i :: 0 <= i < |SampleGroups[4]| ==> SampleGroups[4][i] in "tgJRGQcTZ"
  {
  }

  lemma SecondGroupWithFirst()
    ensures forall i :: 0 <= i < |"tgJRGQcTZ"| && "tgJRGQcTZ"[i] in SampleGroups[3] ==>
      "tgJRGQcTZ"[i] in "QcTZ"
  {
  }

  lemma SecondGroupWithThird()
    ensures forall i :: 0 <= i < |"QcTZ"| && "QcTZ"[i] in SampleGroups[5] ==> "QcTZ"[i] in "Z"
  {
  }

  /** 'r' is the only item common to the first three sample rucksacks. */
  lemma SampleFirstBadge(c: char)
    requires InAllThree(c, SampleGroups[0], SampleGroups[1], SampleGroups[2])
    ensures c == 'r'
  {
    FirstGroupItems();
    Narrow(c, SampleGroups[0], "vJrwpWtghcsFMf");
    FirstGroupWithThird();
    Intersect(c, "vJrwpWtghcsFMf", SampleGroups[2], "vrwWg");
    FirstGroupWithSecond();
    Intersect(c, "vrwWg", SampleGroups[1], "r");
  }

  /** 'Z' is the only item common to the last three. */
  lemma SampleSecondBadge(c: char)
    requires InAllThree(c, SampleGroups[3], SampleGroups[4], SampleGroups[5])
    ensures c == 'Z'
  {
    SecondGroupItems();
    Narrow(c, SampleGroups[4], "tgJRGQcTZ");
    SecondGroupWithFirst();
    Intersect(c, "tgJRGQcTZ", SampleGroups[3], "QcTZ");
    SecondGroupWithThird();
    Intersect(c, "QcTZ", SampleGroups[5], "Z");
  }

  /** Whichever count-3 item the loop picks, part two reports 18 and 52 on
      the sample. */
  lemma SampleGroupsPartTwo(badges: seq<char>)
    requires |badges| == 2
    requires forall k :: 0 <= k < 2 ==>
      InAllThree(badges[k], SampleGroups[3 * k], SampleGroups[3 * k + 1], SampleGroups[3 * k + 2])
    ensures Priorities(badges) == [18, 52]
  {
    assert InAllThree(badges[0], SampleGroups[0], SampleGroups[1], SampleGroups[2]);
    assert InAllThree(badges[1], SampleGroups[3], SampleGroups[4], SampleGroups[5]);
    SampleFirstBadge(badges[0]);
    SampleSecondBadge(badges[1]);
    PrioritiesOfLetters(badges);
  }

  /** Each sample group has a badge: 'r' in the first, 'Z' in the second. */
  lemma SampleBadgesExist()
    ensures InAllThree('r', SampleGroups[0], SampleGroups[1], SampleGroups[2])
    ensures InAllThree('Z', SampleGroups[3], SampleGroups[4], SampleGroups[5])
  {
    assert SampleGroups[0][2] == 'r' && SampleGroups[1][16] == 'r' && SampleGroups[2][7] == 'r';
    assert SampleGroups[3][6] == 'Z' && SampleGroups[4][12] == 'Z' && SampleGroups[5][2] == 'Z';
  }

  /** Neither error of part two arises on the sample: six lines, and a
      badge in each group. */
  lemma SampleHasBadges(lines: seq<string>)
    requires lines == SampleGroups
    ensures |lines| % 3 == 0
    ensures forall k :: 0 <= k < |lines| / 3 ==> !HasNoBadge(lines, k)
  {
    SampleBadgesExist();
    forall k | 0 <= k < |lines| / 3
      ensures !HasNoBadge(lines, k)
    {
      if k == 0 {
        assert InAllThree('r', lines[0], lines[1], lines[2]);
      } else {
        assert InAllThree('Z', lines[3], lines[4], lines[5]);
      }
    }
  }

  /** The part-two test: on the six sample lines the loop succeeds and
      reports 18 and 52. */
  method SamplePartTwo(lines: seq<string>) returns (r: Result<seq<nat>>)
    requires lines == SampleGroups
    ensures r == Ok([18, 52])
  {
    ghost var badges;
    r, badges := ProcessPartTwo(lines);
    SampleHasBadges(lines);
    SampleGroupsPartTwo(badges);
  }
}
