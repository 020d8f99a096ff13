# Advent of Code 2022, days 1 to 3, in Dafny

This project models the solvers of the first three puzzles of a Rust Advent of
Code 2022 repository. It proves properties of each model.

- **Day 1, calorie counting** (`Calories`, `calories.dfy`):
  - lines of numbers separated by blank lines form one group per elf;
  - each group is summed;
  - the elf with the largest sum is found;
  - the sums are sorted in place, largest first, and the first three are added.
- **Day 2, rock paper scissors** (`RockPaperScissors`, `rock_paper_scissors.dfy`):
  - there is a dominance table between the three moves, and its inverse, which
    gives the move that reaches a wanted outcome;
  - decoders read the letters of a strategy line;
  - a line scores in two ways: the second column is either the move played or
    the outcome wanted.
- **Day 3, rucksack priorities** (`Rucksack`, `rucksack.dfy`):
  - every letter has a priority;
  - part one reports the item that both halves of a line share;
  - part two tallies the distinct items of each group of three lines and
    reports the priority of the item counted three times, the group's badge.

`Errors` (`errors.dfy`) holds the program's error kinds and a `Result` type.
In that type `:-` plays the part of Rust's `?`.

Where the source panics, the model returns an error instead:
- an `unwrap` of a failed parse;
- `doubles[0]` or `badge[0]` on an empty vector;
- reading past the last line of a group of three.

Each such error is a `ValidationError` whose reason names the failure. A
caller therefore sees every outcome the source can reach, and the
preconditions ask only what the source assumes of its input.

Two choices of the code are easy to miss, and the model keeps both:
- **Ties for the most calories.** `max_by_key` returns the LAST of several
  equal maxima. `Calories.MostCalories` states this.
- **The columns of day 2.** `parse_move` accepts A, B, C, X, Y and Z in
  either column. The score lemmas cover every letter it accepts.

## Model

| member | source | states |
|---|---|---|
| Calories.ParseU32 | src/day1.rs:32 | `parse::<u32>` succeeds only on an optional '+' followed by decimal digits, with a value below 2^32 |
| Calories.ParseDecimal | src/day1.rs:32 | every u32 written in decimal parses back to itself |
| Calories.CountCalories | src/day1.rs:22-39 | the loop returns one sum per group of `GroupLines`, in input order, or the same parse error |
| Calories.GroupsNonEmpty | src/day1.rs:28-37 | no group is empty: a blank line closes only a non-empty group, and only a non-empty group is flushed at the end |
| Calories.GroupsKeepOrder | src/day1.rs:26-38 | the groups, concatenated, are exactly the numbers of the input in order, so nothing is lost, duplicated or reordered |
| Calories.GroupsCount | src/day1.rs:28-38 | there is one group per blank line that closes a group, plus one if a group is still open at the end |
| Calories.GroupsFailIff | src/day1.rs:27-33 | grouping fails exactly when some readable line does not parse, including a blank line while no group is open, and then with the parse error |
| Calories.UnreadableIgnored | src/day1.rs:27 | an unreadable line changes nothing |
| Calories.RenderRoundTrip | src/day1.rs:22-39 | grouping inverts the input format: non-empty groups of u32s, written one number per line with blank separators, group back to themselves |
| Calories.LastMaxIndex | src/day1.rs:48 | `max_by_key` picks an index whose value bounds all others, and every later value is strictly smaller (the last maximum) |
| Calories.MostCalories | src/day1.rs:47-51 | the result is an error exactly for no elves; otherwise it is an in-range index, its value, which is the maximum, and the last index holding it |
| Calories.SortDescending | src/day1.rs:43 | `sort_by(b.cmp(a))` leaves the array non-increasing and a permutation of its old contents |
| Calories.FindTopThree | src/day1.rs:42-45 | the array is sorted largest first and permuted; the total is the sum of its first min(3, n) elements, which is the sum of everything when n <= 3 |
| Calories.SumPermutation | src/day1.rs:44 | a sum does not depend on the order of its terms |
| Calories.SortedUnique | src/day1.rs:43-44 | two non-increasing orders of the same multiset are equal, so the top-three total depends only on the sums |
| Calories.TopThreeDominates | src/day1.rs:43-44 | in the sorted sums no three elements exceed the first three together |
| Calories.SmallExampleGroups | src/day1.rs:58-61 | the small example input groups into its five groups |
| Calories.SmallExampleSums | src/day1.rs:59-61 | the five groups sum to 6000, 4000, 11000, 24000 and 10000 |
| Calories.SmallExampleMost | src/day1.rs:63-65 | the elf at index 3 carries the most, 24000 |
| Calories.SmallExampleTopThree | src/day1.rs:42-45 | however the example sums are sorted, the top three add up to 45000 |
| RockPaperScissors.OutcomeOf | src/day2.rs:20-32 | the round is a draw exactly when both moves are equal, so the arm marked unreachable is never taken |
| RockPaperScissors.OutcomeIsCyclic | src/day2.rs:21-32 | one step forward in Rock, Paper, Scissors wins, one step back loses, and no step draws |
| RockPaperScissors.OutcomeAntisymmetric | src/day2.rs:21-32 | `b` wins against `a` exactly when `a` loses against `b` |
| RockPaperScissors.RequiredMove | src/day2.rs:34-44 | the required move reaches the requested outcome against `a` |
| RockPaperScissors.RequiredMoveRecovers | src/day2.rs:34-44 | the required move for the outcome of `b` is `b` itself, so each outcome has exactly one move |
| RockPaperScissors.ParseMove | src/day2.rs:46-56 | it succeeds exactly on one of the six letters A, B, C, X, Y, Z; anything else is an `InputError` |
| RockPaperScissors.ParseMoveRoundTrip | src/day2.rs:46-56 | the letters of a move in either column decode back to that move |
| RockPaperScissors.ParseOutcome | src/day2.rs:58-65 | it succeeds exactly on X, Y or Z; anything else is an `InputError` |
| RockPaperScissors.ParseOutcomeRoundTrip | src/day2.rs:58-65 | the letter of an outcome decodes back to it |
| RockPaperScissors.ScoreFromMove | src/day2.rs:67-73 | each move scores 1, 2 or 3, by its place in the canonical order |
| RockPaperScissors.ScoreOutcome | src/day2.rs:75-81 | a loss scores below 3, a win above 3, and every score is a multiple of 3 up to 6 |
| RockPaperScissors.SplitJoin | src/day2.rs:84 | joining the pieces of `split(" ")` with single spaces gives back the line, and no piece holds a space |
| RockPaperScissors.EvaluateLine | src/day2.rs:83-92 | a score is between 1 and 9; every failure is an `InputError` |
| RockPaperScissors.EvaluateLineAccepts | src/day2.rs:83-92 | a line scores exactly when it is two move letters separated by one space |
| RockPaperScissors.EvaluateLineScore | src/day2.rs:83-92 | every line part one accepts, with any of the six letters in either column, scores the base score of its second move plus the bonus for that move's outcome against the first |
| RockPaperScissors.EvaluateLinePartTwo | src/day2.rs:94-104 | a score is between 1 and 9; every failure is an `InputError` |
| RockPaperScissors.EvaluateLinePartTwoAccepts | src/day2.rs:94-104 | a line scores exactly when it is a move letter, one space and an outcome letter |
| RockPaperScissors.PartTwoIsPartOneWithRequiredMove | src/day2.rs:94-104 | every line part two accepts scores the required move's base score plus the named outcome's bonus, which is what part one gives the line that plays the required move |
| RockPaperScissors.SmallExample | src/day2.rs:111-155 | the example lines score 8, 1, 6 in part one and 4, 1, 7 in part two |
| Rucksack.Priority | src/day3.rs:6-14 | a character has a priority exactly when it is a letter; priorities run 1..26 for lower case and 27..52 for upper case |
| Rucksack.PriorityLetter | src/day3.rs:6-14 | every priority 1..52 belongs to a letter |
| Rucksack.LetterPriority | src/day3.rs:6-14 | every letter is the letter of its priority |
| Rucksack.PriorityInjective | src/day3.rs:6-14 | distinct letters have distinct priorities |
| Rucksack.Doubles | src/day3.rs:23-28 | the priorities of the shared items of the second half, each between 1 and 52 |
| Rucksack.ProcessLinePartOne | src/day3.rs:16-30 | an odd-length line is rejected with the source's message; any other error means no shared item; a result is a priority 1..52 |
| Rucksack.PartOneCharacterized | src/day3.rs:16-30 | on an even line it fails exactly when no item of the second half is in the first; otherwise it reports the priority of the first such item |
| Rucksack.Dedup | src/day3.rs:92-93 | sort plus dedup keeps exactly the distinct characters, each once |
| Rucksack.CountChars | src/day3.rs:91-98 | each distinct character of the line has its count raised by one, however often it occurs; new ones start at 1; others are unchanged |
| Rucksack.BadgeCounts | src/day3.rs:76-79 | after the three tallies, each count is 1..3, and it is 3 exactly for the items in all three lines |
| Rucksack.PrioritiesOfLetters | src/day3.rs:87 | for letter badges, `filter_map(value)` keeps one priority per badge, in order |
| Rucksack.ProcessPartTwo | src/day3.rs:69-89 | it fails exactly when the line count is not a multiple of 3 or some group has no common item; otherwise each badge lies in all three lines of its group and the result is their priorities |
| Rucksack.PartOneFirstShared | src/day3.rs:16-30 | a line whose second half first shares `shared` after unshared items reports the priority of `shared` |
| Rucksack.SampleLine1PartOne | src/day3.rs:40-48 | the first sample line reports 16 |
| Rucksack.SampleLine2PartOne | src/day3.rs:40-48 | the second sample line reports 38 |
| Rucksack.SampleLine3PartOne | src/day3.rs:40-48 | the third sample line reports 42 |
| Rucksack.SampleLine4PartOne | src/day3.rs:40-48 | the fourth sample line reports 22 |
| Rucksack.SampleLine5PartOne | src/day3.rs:40-48 | the fifth sample line reports 20 |
| Rucksack.SampleLine6PartOne | src/day3.rs:40-48 | the sixth sample line reports 19 |
| Rucksack.SampleFirstBadge | src/day3.rs:58-62 | 'r' is the only item common to the first sample group |
| Rucksack.SampleSecondBadge | src/day3.rs:58-62 | 'Z' is the only item common to the second sample group |
| Rucksack.SampleGroupsPartTwo | src/day3.rs:58-62 | whichever count-3 item is picked, part two reports 18 and 52 on the sample |
| Rucksack.SampleBadgesExist | src/day3.rs:58-62 | 'r' is in all three lines of the first sample group and 'Z' in all three of the second |
| Rucksack.SampleHasBadges | src/day3.rs:69-89 | the sample has a multiple of three lines and every group has a badge, so neither error of part two arises |
| Rucksack.SamplePartTwo | src/day3.rs:58-62 | the loop succeeds on the six sample lines and reports 18 and 52, as the test expects |

## Left out

- `part_1_and_two` (src/day1.rs:8-20) is left out. It opens a file and prints; the model starts from the lines and from the functions it calls.
- The line reader, `main.rs` and the tests over the full puzzle inputs are left out. They do file I/O, and the input files are not part of this model.
- Calories: sums are unbounded naturals. The u32 overflow of `sum()` on very large groups is not modelled; Rust's debug build would panic there.
- Calories.CountCalories: a line that does not parse is an error value, not a panic. It stands for the panic of `unwrap`.
- Calories.MostCalories: an empty list gives an error value. It stands for the panic of `unwrap` on `None`.
- Calories.FindTopThree: its contract speaks of `old` array contents, so it is stated on the array and the sums of its prefix. The in-place sort is an insertion sort; Rust's `sort_by` algorithm is not modelled, only its result (sorted and a permutation).
- Rucksack.ProcessLinePartOne: it requires an ASCII line. Rust's byte-offset slicing of a multi-byte UTF-8 line (`&line[..comp_size]`) can panic, and that is not modelled.
- Rucksack.ProcessLinePartOne: an empty `doubles` vector is an error value, not the panic of `doubles[0]`.
- Rucksack.CountChars: the sort and deduplication are modelled as keeping the distinct characters in order of first occurrence. The sort order does not reach the tally.
- Rucksack.ProcessPartTwo: the hash map's iteration order is not modelled. The badge is any item with count 3 (a nondeterministic choice), and the chosen badges are a ghost result. A short last group and a group with no badge give error values, not panics.
- The small input files of the tests (`input/day1-1-small`, `input/day3-1-small`, `input/day3-2-small`) are not part of this model. The examples use the published puzzle samples, which give the values the tests expect.
