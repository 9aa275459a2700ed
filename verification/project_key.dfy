/**
 Labels of projects (src/aggregate/project-key.ts).

 `LabelsOf` gives every key of a set its label, round by round; `BuildProjectLabels` computes it
 from a list of keys with the source's mutable maps. The order a map is walked in is left open,
 so the result is shown for every order.
 */
module ProjectLabels {
  import opened Common

  const UNATTRIBUTED_PROJECT_LABEL: string := "(unattributed)"

  // ----- segments and tails

  predicate IsSeparator(c: char) {
    c == '/' || c == '\\'
  }

  predicate IsLetter(c: char) {
    'a' <= c <= 'z' || 'A' <= c <= 'Z'
  }

  /** A drive letter belongs to the root. */
  function WithoutDrive(key: string): string {
    if |key| >= 2 && IsLetter(key[0]) && key[1] == ':' then key[2..] else key
  }

  function Split(path: string): (parts: seq<string>)
    ensures parts != []
  {
    if path == "" then [""]
    else
      var parts := Split(path[..|path| - 1]);
      var last, c := |parts| - 1, path[|path| - 1];
      if IsSeparator(c) then parts + [""] else parts[last := parts[last] + [c]]
  }

  function NonEmpty(parts: seq<string>): seq<string> {
    if parts == [] then []
    else NonEmpty(parts[..|parts| - 1]) + (if parts[|parts| - 1] == "" then [] else [parts[|parts| - 1]])
  }

  function SplitKeySegments(key: string): seq<string> {
    NonEmpty(Split(WithoutDrive(key)))
  }

  function Join(segments: seq<string>): string {
    if segments == [] then "" else if |segments| == 1 then segments[0]
    else Join(segments[..|segments| - 1]) + "/" + segments[|segments| - 1]
  }

  /** The last `depth` segments, or the whole key when it has fewer. */
  function Tail(key: string, segments: seq<string>, depth: nat): string {
    if depth > |segments| then key else Join(segments[|segments| - depth..])
  }

  function LabelAt(key: string, depth: nat): string {
    Tail(key, SplitKeySegments(key), depth)
  }

  // ----- code point order

  predicate Before(a: string, b: string) {
    if b == "" then false
    else if a == "" then true
    else a[0] < b[0] || (a[0] == b[0] && Before(a[1..], b[1..]))
  }

  lemma {:induction false} OneIsBefore(a: string, b: string)
    ensures a == b || Before(a, b) || Before(b, a)
    ensures !(Before(a, b) && Before(b, a)) && !Before(a, a)
  {
    if a != "" && b != "" && a[0] == b[0] {
      OneIsBefore(a[1..], b[1..]);
      OneIsBefore(a[1..], a[1..]);
      assert a == [a[0]] + a[1..] && b == [b[0]] + b[1..];
    } else if a != "" {
      OneIsBefore(a[1..], a[1..]);
    }
  }

  lemma {:induction false} BeforeIsTransitive(a: string, b: string, c: string)
    requires Before(a, b) && Before(b, c)
    ensures Before(a, c)
  {
    if a != "" && a[0] == b[0] == c[0] { BeforeIsTransitive(a[1..], b[1..], c[1..]); }
  }

  /** The texts agree up to `k`, where `a` ends, or has the smaller character. */
  ghost predicate FirstDiffers(a: string, b: string, k: nat) {
    k <= |a| && k < |b| && a[..k] == b[..k] && (k == |a| || a[k] < b[k])
  }

  /** Character by character, a shorter text before a longer one that starts with it. */
  lemma {:induction false} BeforeIff(a: string, b: string)
    ensures Before(a, b) <==> exists k: nat :: FirstDiffers(a, b, k)
  {
    if b != "" && (a == "" || a[0] < b[0]) {
      assert FirstDiffers(a, b, 0);
    } else if b != "" && a[0] == b[0] {
      BeforeIff(a[1..], b[1..]);
      if k: nat :| FirstDiffers(a[1..], b[1..], k) {
        assert a[..k + 1] == [a[0]] + a[1..][..k] && b[..k + 1] == [b[0]] + b[1..][..k];
        assert FirstDiffers(a, b, k + 1);
      }
      if k: nat :| FirstDiffers(a, b, k) {
        assert k > 0 && a[1..][..k - 1] == a[..k][1..] && b[1..][..k - 1] == b[..k][1..];
        assert FirstDiffers(a[1..], b[1..], k - 1);
      }
    } else if b != "" {
      forall k: nat | 0 < k <= |a| && k < |b| ensures a[..k] != b[..k] { assert a[..k][0] != b[..k][0]; }
    }
  }

  ghost predicate IsLeast(key: string, keys: set<string>) {
    key in keys && forall other :: other in keys && other != key ==> Before(key, other)
  }

  lemma {:induction false} LeastExists(keys: set<string>) returns (least: string)
    requires keys != {}
    ensures IsLeast(least, keys)
    decreases |keys|
  {
    var key :| key in keys;
    if keys == {key} { return key; }
    var rest := keys - {key};
    least := LeastExists(rest);
    OneIsBefore(key, least);
    if Before(key, least) {
      forall other | other in keys && other != key ensures Before(key, other) {
        if other != least { BeforeIsTransitive(key, least, other); }
      }
      least := key;
    }
  }

  lemma LeastIsUnique(a: string, b: string, keys: set<string>)
    requires IsLeast(a, keys) && IsLeast(b, keys)
    ensures a == b
  {
    OneIsBefore(a, b);
  }

  ghost function Least(keys: set<string>): (least: string)
    requires keys != {}
    ensures IsLeast(least, keys)
  {
    assert exists key :: IsLeast(key, keys) by { var key := LeastExists(keys); }
    var key :| IsLeast(key, keys);
    key
  }

  // ----- numbered labels

  function Digit(d: nat): char
    requires d < 10
  {
    "0123456789"[d]
  }

  function Decimal(n: nat): (text: string)
    ensures text != ""
  {
    if n < 10 then [Digit(n)] else Decimal(n / 10) + [Digit(n % 10)]
  }

  lemma {:induction false} DecimalIsInjective(m: nat, n: nat)
    requires Decimal(m) == Decimal(n)
    ensures m == n
  {
    var a, b := Decimal(m), Decimal(n);
    assert a[|a| - 1] == Digit(m % 10) && b[|b| - 1] == Digit(n % 10);
    if m >= 10 && n >= 10 {
      assert Decimal(m / 10) == a[..|a| - 1] && Decimal(n / 10) == b[..|b| - 1];
      DecimalIsInjective(m / 10, n / 10);
    }
  }

  /** The number that decimal digits stand for. */
  function ValueOf(digits: string): int {
    if digits == "" then 0 else 10 * ValueOf(digits[..|digits| - 1]) + (digits[|digits| - 1] as int - '0' as int)
  }

  /** A number's text is its decimal digits, the first not a zero. */
  lemma {:induction false} DecimalIsTheNumber(n: nat)
    ensures ValueOf(Decimal(n)) == n && (n > 0 ==> Decimal(n)[0] != '0')
    ensures forall i :: 0 <= i < |Decimal(n)| ==> '0' <= Decimal(n)[i] <= '9'
  {
    if n >= 10 {
      DecimalIsTheNumber(n / 10);
      assert Decimal(n)[..|Decimal(n)| - 1] == Decimal(n / 10);
    } else {
      assert Decimal(n)[..0] == "" && Decimal(n) == [Digit(n)];
    }
  }

  /** The first candidate is the label itself, the next are numbered from 2. */
  function Candidate(name: string, number: nat): string {
    if number <= 1 then name else name + " #" + Decimal(number)
  }

  lemma CandidatesDiffer(name: string, m: nat, n: nat)
    requires 1 <= m && 1 <= n && Candidate(name, m) == Candidate(name, n)
    ensures m == n
  {
    if m > 1 && n > 1 {
      var stem := name + " #";
      assert Decimal(m) == (stem + Decimal(m))[|stem|..] && Decimal(n) == (stem + Decimal(n))[|stem|..];
      DecimalIsInjective(m, n);
    }
  }

  /** The first free candidate from `number` on: each taken one rules out one label for good. */
  function FirstFree(name: string, number: nat, taken: set<string>): nat
    decreases |taken|
  {
    var candidate := Candidate(name, number);
    if candidate in taken then FirstFree(name, number + 1, taken - {candidate}) else number
  }

  lemma {:induction false} FirstFreeIsFree(name: string, number: nat, taken: set<string>, all: set<string>)
    requires 1 <= number && taken <= all
    requires forall m :: 1 <= m < number ==> Candidate(name, m) in all
    requires forall t :: t in all && t !in taken ==> exists m :: 1 <= m < number && Candidate(name, m) == t
    ensures var free := FirstFree(name, number, taken);
      free >= 1 && Candidate(name, free) !in all && forall m :: 1 <= m < free ==> Candidate(name, m) in all
    decreases |taken|
  {
    var candidate := Candidate(name, number);
    if candidate in taken {
      FirstFreeIsFree(name, number + 1, taken - {candidate}, all);
    } else if candidate in all {
      var m :| 1 <= m < number && Candidate(name, m) == candidate;
      CandidatesDiffer(name, m, number);
    }
  }

  /** A rootless key spelled like the reserved label reads as a relative path. */
  function FullLabel(key: string): string {
    if key == UNATTRIBUTED_PROJECT_LABEL then "./" + key else key
  }

  function NumberedLabel(key: string, taken: set<string>): string {
    Candidate(FullLabel(key), FirstFree(FullLabel(key), 1, taken))
  }

  /** A number that is free, and least so, is the one `NumberedLabel` takes. */
  lemma NumberedLabelIs(key: string, taken: set<string>, number: nat)
    requires 1 <= number && Candidate(FullLabel(key), number) !in taken
    requires forall m :: 1 <= m < number ==> Candidate(FullLabel(key), m) in taken
    ensures NumberedLabel(key, taken) == Candidate(FullLabel(key), number)
  {
    FirstFreeIsFree(FullLabel(key), 1, taken, taken);
  }

  /** The key, spelled apart from the reserved label, and the least number from 2 on when that is taken. */
  lemma NumberedLabelText(key: string, taken: set<string>) returns (number: nat)
    ensures var full := if key == "(unattributed)" then "./(unattributed)" else key;
      && (full !in taken ==> NumberedLabel(key, taken) == full)
      && (full in taken ==>
            && number >= 2 && NumberedLabel(key, taken) == full + " #" + Decimal(number) && NumberedLabel(key, taken) !in taken
            && forall m: nat :: 2 <= m < number ==> full + " #" + Decimal(m) in taken)
  {
    var full := FullLabel(key);
    number := FirstFree(full, 1, taken);
    FirstFreeIsFree(full, 1, taken, taken);
    assert full == if key == "(unattributed)" then "./(unattributed)" else key;
    assert NumberedLabel(key, taken) == Candidate(full, number);
    assert Candidate(full, 1) == full && (number > 1 ==> Candidate(full, 1) in taken);
    forall m: nat | 2 <= m < number ensures full + " #" + Decimal(m) in taken { assert Candidate(full, m) in taken; }
  }

  // ----- the rounds

  /** Labels given so far, the keys without one, and every label no key may get any more. */
  datatype Naming = Naming(labels: map<string, string>, pending: set<string>, taken: set<string>)

  /** The label every key tries in a round. */
  ghost function TailsAt(keys: set<string>, depth: nat): map<string, string> {
    map key | key in keys :: LabelAt(key, depth)
  }

  /** No other key tries the same label, and no key has got it before. */
  ghost predicate Wins(tails: map<string, string>, taken: set<string>, key: string)
    requires key in tails
  {
    && tails[key] !in taken
    && forall other :: other in tails && tails[other] == tails[key] ==> other == key
  }

  ghost function Winners(tails: map<string, string>, taken: set<string>): set<string> {
    set key | key in tails && Wins(tails, taken, key)
  }

  /** Losers with no longer tail to try. */
  ghost function Exhausted(tails: map<string, string>, taken: set<string>, depth: nat): set<string> {
    set key | key in tails && !Wins(tails, taken, key) && depth >= |SplitKeySegments(key)|
  }

  ghost function GiveTails(st: Naming, tails: map<string, string>, winners: set<string>): Naming
    requires winners <= tails.Keys
  {
    Naming(st.labels + (map key | key in winners :: tails[key]), st.pending - winners, st.taken + (set key | key in winners :: tails[key]))
  }

  function Give(st: Naming, key: string, name: string): Naming {
    Naming(st.labels[key := name], st.pending - {key}, st.taken + {name})
  }

  /** The keys in code point order, each with the first number that is free by then. */
  ghost function GiveNumbered(st: Naming, keys: set<string>): Naming
    decreases |keys|
  {
    if keys == {} then st
    else
      var key := Least(keys);
      GiveNumbered(Give(st, key, NumberedLabel(key, st.taken)), keys - {key})
  }

  ghost function AfterWinners(st: Naming, depth: nat): Naming {
    var tails := TailsAt(st.pending, depth);
    GiveTails(st, tails, Winners(tails, st.taken))
  }

  ghost function Losers(st: Naming, depth: nat): set<string> {
    Exhausted(TailsAt(st.pending, depth), st.taken, depth)
  }

  ghost function Round(st: Naming, depth: nat): Naming {
    GiveNumbered(AfterWinners(st, depth), Losers(st, depth))
  }

  /** The most segments of any of the keys. */
  ghost function Longest(keys: set<string>): (n: nat)
    ensures forall key :: key in keys ==> |SplitKeySegments(key)| <= n
    ensures keys != {} ==> exists key :: key in keys && |SplitKeySegments(key)| == n
  {
    if keys == {} then 0
    else
      var key :| key in keys;
      var rest := Longest(keys - {key});
      if |SplitKeySegments(key)| >= rest then |SplitKeySegments(key)| else rest
  }

  lemma {:induction false} NumberedAreGiven(st: Naming, keys: set<string>)
    requires keys <= st.pending
    ensures GiveNumbered(st, keys).pending == st.pending - keys
    decreases |keys|
  {
    if keys != {} {
      var key := Least(keys);
      NumberedAreGiven(Give(st, key, NumberedLabel(key, st.taken)), keys - {key});
      assert st.pending - {key} - (keys - {key}) == st.pending - keys;
    }
  }

  /** A round leaves exactly the losers with a longer tail. */
  lemma RoundLeaves(st: Naming, depth: nat)
    ensures Round(st, depth).pending == AfterWinners(st, depth).pending - Losers(st, depth)
    ensures forall key :: key in Round(st, depth).pending ==> key in st.pending && depth < |SplitKeySegments(key)|
  {
    NumberedAreGiven(AfterWinners(st, depth), Losers(st, depth));
  }

  /** Some key with segments left to use is pending, or none is: each round brings the end closer. */
  lemma RoundDescends(st: Naming, depth: nat)
    requires Round(st, depth).pending != {}
    ensures depth < Longest(Round(st, depth).pending) <= Longest(st.pending)
  {
    RoundLeaves(st, depth);
    var next := Round(st, depth).pending;
    var key :| key in next && |SplitKeySegments(key)| == Longest(next);
  }

  ghost function Left(st: Naming, depth: nat): nat {
    if st.pending == {} then 0 else if Longest(st.pending) >= depth then Longest(st.pending) - depth + 2 else 1
  }

  lemma RoundCountsDown(st: Naming, depth: nat)
    requires st.pending != {}
    ensures Left(Round(st, depth), depth + 1) < Left(st, depth)
  {
    if Round(st, depth).pending != {} { RoundDescends(st, depth); }
  }

  /** Each round leaves less to do, by some measure, while keys are pending. */
  ghost predicate Descends(round: (Naming, nat) -> Naming, left: (Naming, nat) -> nat) {
    forall st: Naming, depth: nat {:trigger round(st, depth)} :: st.pending != {} ==> left(round(st, depth), depth + 1) < left(st, depth)
  }

  /** Rounds until no key is pending. */
  ghost function Iterate(round: (Naming, nat) -> Naming, left: (Naming, nat) -> nat, st: Naming, depth: nat): Naming
    requires Descends(round, left)
    decreases left(st, depth)
  {
    if st.pending == {} then st else Iterate(round, left, round(st, depth), depth + 1)
  }

  /** Whatever every round keeps holds at the end, when no key is pending. */
  lemma {:induction false} IterateKeeps(round: (Naming, nat) -> Naming, left: (Naming, nat) -> nat, holds: Naming -> bool, st: Naming, depth: nat)
    requires Descends(round, left) && holds(st) && 1 <= depth
    requires forall s, d: nat {:trigger round(s, d)} :: holds(s) && 1 <= d ==> holds(round(s, d))
    ensures holds(Iterate(round, left, st, depth)) && Iterate(round, left, st, depth).pending == {}
    decreases left(st, depth)
  {
    if st.pending != {} { IterateKeeps(round, left, holds, round(st, depth), depth + 1); }
  }

  lemma RoundsDescend()
    ensures Descends(Round, Left)
  {
    forall st: Naming, depth: nat | st.pending != {} ensures Left(Round(st, depth), depth + 1) < Left(st, depth) { RoundCountsDown(st, depth); }
  }

  ghost function Rounds(st: Naming, depth: nat): Naming {
    RoundsDescend();
    Iterate(Round, Left, st, depth)
  }

  lemma RoundsUnfold(st: Naming, depth: nat)
    ensures Rounds(st, depth) == if st.pending == {} then st else Rounds(Round(st, depth), depth + 1)
  {
    RoundsDescend();
  }

  ghost function Start(keys: set<string>): Naming {
    Naming(map[], keys, {UNATTRIBUTED_PROJECT_LABEL})
  }

  ghost function LabelsOf(keys: set<string>): map<string, string> {
    Rounds(Start(keys), 1).labels
  }

  // ----- what every label is

  /** A label is a tail of the key's own segments, the key, or the key numbered. */
  ghost predicate OwnLabel(key: string, name: string) {
    || (exists depth :: 1 <= depth && name == LabelAt(key, depth))
    || (exists number :: 1 <= number && name == Candidate(FullLabel(key), number))
  }

  ghost predicate Distinct(labels: map<string, string>) {
    forall a, b :: a in labels && b in labels && labels[a] == labels[b] ==> a == b
  }

  /** Labels given so far differ from each other and from the reserved one, and none is given twice. */
  ghost predicate Good(st: Naming, keys: set<string>) {
    && st.labels.Keys + st.pending == keys && st.labels.Keys !! st.pending
    && UNATTRIBUTED_PROJECT_LABEL in st.taken
    && (forall key :: key in st.labels ==> st.labels[key] in st.taken && OwnLabel(key, st.labels[key]))
    && (forall key :: key in st.labels ==> st.labels[key] != UNATTRIBUTED_PROJECT_LABEL)
    && Distinct(st.labels)
  }

  lemma GiveKeeps(st: Naming, key: string, name: string, keys: set<string>)
    requires Good(st, keys) && key in st.pending && name !in st.taken && OwnLabel(key, name)
    ensures Good(Give(st, key, name), keys)
  {
    var next := Give(st, key, name);
    assert next.labels.Keys + next.pending == keys;
  }

  lemma {:induction false} NumberingKeeps(st: Naming, exhausted: set<string>, keys: set<string>)
    requires Good(st, keys) && exhausted <= st.pending
    ensures Good(GiveNumbered(st, exhausted), keys)
    decreases |exhausted|
  {
    if exhausted != {} {
      var key := Least(exhausted);
      FirstFreeIsFree(FullLabel(key), 1, st.taken, st.taken);
      GiveKeeps(st, key, NumberedLabel(key, st.taken), keys);
      NumberingKeeps(Give(st, key, NumberedLabel(key, st.taken)), exhausted - {key}, keys);
    }
  }

  lemma TailsKeep(st: Naming, tails: map<string, string>, keys: set<string>)
    requires Good(st, keys) && tails.Keys == st.pending
    requires forall key :: key in tails ==> OwnLabel(key, tails[key])
    ensures Good(GiveTails(st, tails, Winners(tails, st.taken)), keys)
  {
    var winners := Winners(tails, st.taken);
    var next := GiveTails(st, tails, winners);
    assert next.labels.Keys + next.pending == keys;
    forall a, b | a in next.labels && b in next.labels && next.labels[a] == next.labels[b] ensures a == b {
      if a in winners && b in winners { assert Wins(tails, st.taken, a); }
    }
  }

  lemma RoundKeeps(st: Naming, depth: nat, keys: set<string>)
    requires Good(st, keys) && 1 <= depth
    ensures Good(Round(st, depth), keys)
  {
    TailsKeep(st, TailsAt(st.pending, depth), keys);
    NumberingKeeps(AfterWinners(st, depth), Losers(st, depth), keys);
  }

  /** Every key gets a label of its own, never the reserved one, and no two keys share one. */
  lemma EveryKeyHasItsOwnLabel(keys: set<string>)
    ensures LabelsOf(keys).Keys == keys && Distinct(LabelsOf(keys))
    ensures forall key :: key in keys ==>
      OwnLabel(key, LabelsOf(keys)[key]) && LabelsOf(keys)[key] != UNATTRIBUTED_PROJECT_LABEL
  {
    var good := (st: Naming) => Good(st, keys);
    forall st, depth: nat | good(st) && 1 <= depth ensures good(Round(st, depth)) { RoundKeeps(st, depth, keys); }
    RoundsDescend();
    IterateKeeps(Round, Left, good, Start(keys), 1);
    assert Good(Rounds(Start(keys), 1), keys);
  }

  lemma {:induction false} NumberingKeepsGiven(st: Naming, exhausted: set<string>, key: string)
    requires key in st.labels && exhausted <= st.pending && key !in st.pending
    ensures key in GiveNumbered(st, exhausted).labels && GiveNumbered(st, exhausted).labels[key] == st.labels[key]
    decreases |exhausted|
  {
    if exhausted != {} {
      var least := Least(exhausted);
      NumberingKeepsGiven(Give(st, least, NumberedLabel(least, st.taken)), exhausted - {least}, key);
    }
  }

  /** A label, once given, stays. */
  lemma RoundsKeepGiven(st: Naming, depth: nat, key: string)
    requires key in st.labels && key !in st.pending && 1 <= depth
    ensures key in Rounds(st, depth).labels && Rounds(st, depth).labels[key] == st.labels[key]
  {
    var given := (s: Naming) => key in s.labels && key !in s.pending && s.labels[key] == st.labels[key];
    forall s, d: nat | given(s) ensures given(Round(s, d)) {
      RoundLeaves(s, d);
      NumberingKeepsGiven(AfterWinners(s, d), Losers(s, d), key);
    }
    RoundsDescend();
    IterateKeeps(Round, Left, given, st, depth);
    assert given(Rounds(st, depth));
  }

  /** A key whose last segment no other key shares is labelled with it. */
  lemma UniqueLastSegmentIsTheLabel(keys: set<string>, key: string)
    requires key in keys && LabelAt(key, 1) != UNATTRIBUTED_PROJECT_LABEL
    requires forall other :: other in keys && LabelAt(other, 1) == LabelAt(key, 1) ==> other == key
    ensures key in LabelsOf(keys) && LabelsOf(keys)[key] == LabelAt(key, 1)
  {
    var st := Start(keys);
    assert Wins(TailsAt(keys, 1), st.taken, key);
    RoundsUnfold(st, 1);
    RoundLeaves(st, 1);
    NumberingKeepsGiven(AfterWinners(st, 1), Losers(st, 1), key);
    RoundsKeepGiven(Round(st, 1), 2, key);
  }

  // ----- the shortest free tail

  /** What the rounds before `depth` make of `st`. */
  ghost function Reach(round: (Naming, nat) -> Naming, st: Naming, depth: nat): Naming
    requires depth >= 1
  {
    if depth == 1 then st else round(Reach(round, st, depth - 1), depth - 1)
  }

  /** What is named and pending when tails of `depth` segments are tried. */
  ghost function StateAt(keys: set<string>, depth: nat): Naming
    requires depth >= 1
  {
    Reach(Round, Start(keys), depth)
  }

  /** The key tries its tail of `depth` segments, no other key tries it, and none has it. */
  ghost predicate IsFree(st: Naming, depth: nat, key: string) {
    key in st.pending && Wins(TailsAt(st.pending, depth), st.taken, key)
  }

  ghost function FreeFor(key: string): (Naming, nat) -> bool {
    (st: Naming, depth: nat) => IsFree(st, depth, key)
  }

  ghost predicate FreeIn(round: (Naming, nat) -> Naming, free: (Naming, nat) -> bool, st: Naming, depth: nat)
    requires depth >= 1
  {
    free(Reach(round, st, depth), depth)
  }

  ghost predicate NoneFreeIn(round: (Naming, nat) -> Naming, free: (Naming, nat) -> bool, st: Naming, depth: nat) {
    forall d :: 1 <= d < depth ==> !FreeIn(round, free, st, d)
  }

  /** The key's tail of `depth` segments is free when it is tried. */
  ghost predicate FreeAt(keys: set<string>, key: string, depth: nat)
    requires depth >= 1
  {
    FreeIn(Round, FreeFor(key), Start(keys), depth)
  }

  /** None of the key's tails of fewer segments than `depth` is. */
  ghost predicate NoneShorterFree(keys: set<string>, key: string, depth: nat) {
    NoneFreeIn(Round, FreeFor(key), Start(keys), depth)
  }

  /** The longest tail a key tries: all its segments, or the key itself when it has none. */
  function LongestTry(key: string): nat {
    if SplitKeySegments(key) == [] then 1 else |SplitKeySegments(key)|
  }

  /** A round leaves the key pending unless its tail is free or is its longest. */
  ghost predicate LeavesUnlessFree(round: (Naming, nat) -> Naming, free: (Naming, nat) -> bool, key: string, longest: nat) {
    forall st: Naming, depth: nat {:trigger round(st, depth)} :: depth >= 1 ==>
      (key in round(st, depth).pending <==> key in st.pending && !free(st, depth) && depth < longest)
  }

  lemma {:induction false} ReachPendingIff(round: (Naming, nat) -> Naming, free: (Naming, nat) -> bool, st: Naming, key: string, longest: nat,
                                           depth: nat)
    requires depth >= 1 && longest >= 1 && key in st.pending && LeavesUnlessFree(round, free, key, longest)
    ensures key in Reach(round, st, depth).pending <==> depth <= longest && NoneFreeIn(round, free, st, depth)
  {
    if depth > 1 {
      ReachPendingIff(round, free, st, key, longest, depth - 1);
      assert NoneFreeIn(round, free, st, depth) <==> NoneFreeIn(round, free, st, depth - 1) && !FreeIn(round, free, st, depth - 1);
      assert Reach(round, st, depth) == round(Reach(round, st, depth - 1), depth - 1);
    }
  }

  lemma RoundLeavesIff(st: Naming, depth: nat, key: string)
    ensures key in Round(st, depth).pending <==> key in st.pending && !IsFree(st, depth, key) && depth < |SplitKeySegments(key)|
  {
    RoundLeaves(st, depth);
  }

  lemma RoundLeavesUnlessFree(key: string)
    ensures LeavesUnlessFree(Round, FreeFor(key), key, LongestTry(key))
  {
    forall st: Naming, depth: nat | depth >= 1
      ensures key in Round(st, depth).pending <==> key in st.pending && !FreeFor(key)(st, depth) && depth < LongestTry(key)
    {
      RoundLeavesIff(st, depth, key);
    }
  }

  /** A key is still tried exactly when it has segments left and none of its shorter tails was free. */
  lemma PendingIff(keys: set<string>, key: string, depth: nat)
    requires key in keys && depth >= 1
    ensures key in StateAt(keys, depth).pending <==> depth <= LongestTry(key) && NoneShorterFree(keys, key, depth)
  {
    RoundLeavesUnlessFree(key);
    ReachPendingIff(Round, FreeFor(key), Start(keys), key, LongestTry(key), depth);
  }

  /** With nothing pending a round changes nothing. */
  ghost predicate RestsWhenDone(round: (Naming, nat) -> Naming) {
    forall st: Naming, depth: nat {:trigger round(st, depth)} :: st.pending == {} ==> round(st, depth) == st
  }

  lemma RoundRests()
    ensures RestsWhenDone(Round)
  {
    forall st: Naming, depth: nat | st.pending == {} ensures Round(st, depth) == st {
      assert TailsAt(st.pending, depth) == map[];
      assert AfterWinners(st, depth) == st && Losers(st, depth) == {};
    }
  }

  /** The rounds come to the same from any of them on. */
  lemma {:induction false} IterateFrom(round: (Naming, nat) -> Naming, left: (Naming, nat) -> nat, st: Naming, depth: nat)
    requires depth >= 1 && Descends(round, left) && RestsWhenDone(round)
    ensures Iterate(round, left, Reach(round, st, depth), depth) == Iterate(round, left, st, 1)
  {
    if depth > 1 { IterateFrom(round, left, st, depth - 1); }
  }

  lemma RoundsFrom(keys: set<string>, depth: nat)
    requires depth >= 1
    ensures Rounds(StateAt(keys, depth), depth).labels == LabelsOf(keys)
  {
    RoundsDescend();
    RoundRests();
    IterateFrom(Round, Left, Start(keys), depth);
  }

  /** A label given in a round stays. */
  lemma GivenInRound(st: Naming, depth: nat, key: string)
    requires st.pending != {} && key in Round(st, depth).labels && key !in Round(st, depth).pending
    ensures key in Rounds(st, depth).labels && Rounds(st, depth).labels[key] == Round(st, depth).labels[key]
  {
    RoundsUnfold(st, depth);
    RoundsKeepGiven(Round(st, depth), depth + 1, key);
  }

  lemma FreeTailIsGiven(st: Naming, depth: nat, key: string)
    requires FreeFor(key)(st, depth)
    ensures key in Rounds(st, depth).labels && Rounds(st, depth).labels[key] == LabelAt(key, depth)
  {
    RoundLeaves(st, depth);
    NumberingKeepsGiven(AfterWinners(st, depth), Losers(st, depth), key);
    GivenInRound(st, depth, key);
  }

  /** A key's label is the shortest of its tails that no other key tries with it and none has by then. */
  lemma ShortestFreeTailIsTheLabel(keys: set<string>, key: string, depth: nat)
    requires key in keys && depth >= 1 && FreeAt(keys, key, depth)
    ensures key in LabelsOf(keys) && LabelsOf(keys)[key] == LabelAt(key, depth)
    ensures depth <= LongestTry(key) && NoneShorterFree(keys, key, depth)
  {
    PendingIff(keys, key, depth);
    FreeTailIsGiven(StateAt(keys, depth), depth, key);
    RoundsFrom(keys, depth);
  }

  lemma {:induction false} NumberingGives(st: Naming, exhausted: set<string>, key: string) returns (taken: set<string>)
    requires exhausted <= st.pending && key in exhausted
    ensures st.taken <= taken && key in GiveNumbered(st, exhausted).labels
    ensures GiveNumbered(st, exhausted).labels[key] == NumberedLabel(key, taken)
    decreases |exhausted|
  {
    var least := Least(exhausted);
    var next := Give(st, least, NumberedLabel(least, st.taken));
    if least == key {
      taken := st.taken;
      NumberingKeepsGiven(next, exhausted - {least}, key);
    } else {
      taken := NumberingGives(next, exhausted - {least}, key);
    }
  }

  /** Of the keys numbered in a round the first by code point takes the first number that is free before it. */
  lemma LeastIsNumberedFirst(st: Naming, exhausted: set<string>, key: string)
    requires exhausted <= st.pending && IsLeast(key, exhausted)
    ensures key in GiveNumbered(st, exhausted).labels && GiveNumbered(st, exhausted).labels[key] == NumberedLabel(key, st.taken)
  {
    LeastIsUnique(key, Least(exhausted), exhausted);
    NumberingKeepsGiven(Give(st, key, NumberedLabel(key, st.taken)), exhausted - {key}, key);
  }

  lemma LoserIsNumbered(st: Naming, depth: nat, key: string) returns (taken: set<string>)
    requires key in st.pending && !FreeFor(key)(st, depth) && depth >= |SplitKeySegments(key)|
    ensures st.taken <= taken && key in Rounds(st, depth).labels && Rounds(st, depth).labels[key] == NumberedLabel(key, taken)
  {
    RoundLeaves(st, depth);
    taken := NumberingGives(AfterWinners(st, depth), Losers(st, depth), key);
    GivenInRound(st, depth, key);
  }

  /** A key none of whose tails was free is labelled with itself, under the first number free by then. */
  lemma NoFreeTailIsNumbered(keys: set<string>, key: string) returns (taken: set<string>)
    requires key in keys && NoneShorterFree(keys, key, LongestTry(key)) && !FreeAt(keys, key, LongestTry(key))
    ensures StateAt(keys, LongestTry(key)).taken <= taken
    ensures key in LabelsOf(keys) && LabelsOf(keys)[key] == NumberedLabel(key, taken)
  {
    PendingIff(keys, key, LongestTry(key));
    taken := LoserIsNumbered(StateAt(keys, LongestTry(key)), LongestTry(key), key);
    RoundsFrom(keys, LongestTry(key));
  }

  // ----- labels in the text of a key

  const SEPARATORS: set<char> := {'/', '\\'}

  /** A path segment, as it stands in a key. */
  predicate IsName(name: string) {
    name != "" && forall i :: 0 <= i < |name| ==> name[i] !in SEPARATORS
  }

  predicate OnlySeparators(text: string) {
    forall i :: 0 <= i < |text| ==> text[i] in SEPARATORS
  }

  /** Nothing, or a drive letter and a colon. */
  predicate IsDrive(drive: string) {
    drive == "" || (|drive| == 2 && ('A' <= drive[0] <= 'Z' || 'a' <= drive[0] <= 'z') && drive[1] == ':')
  }

  /** The text past a drive, or a text that starts with none. */
  predicate IsPast(drive: string, path: string) {
    IsDrive(drive) && (drive == "" ==> |path| < 2 || !IsDrive(path[..2]))
  }

  lemma DriveIsLeftOff(drive: string, path: string)
    requires IsPast(drive, path)
    ensures WithoutDrive(drive + path) == path
  {
    if drive == "" { assert drive + path == path; } else { assert (drive + path)[2..] == path; }
  }

  /** A separator in a key comes after its drive. */
  lemma DriveIsInFront(front: string, sep: char, rest: string)
    requires sep in SEPARATORS
    ensures WithoutDrive(front + [sep] + rest) == WithoutDrive(front) + [sep] + rest
  {
    var key := front + [sep] + rest;
    if |front| >= 2 {
      assert key[0] == front[0] && key[1] == front[1];
      assert key[2..] == front[2..] + [sep] + rest;
    } else if |front| == 1 {
      assert key[1] == sep;
    } else {
      assert key[0] == sep;
    }
  }

  lemma SplitOneMore(path: string, c: char)
    ensures var parts := Split(path);
      Split(path + [c]) == if c in SEPARATORS then parts + [""] else parts[|parts| - 1 := parts[|parts| - 1] + [c]]
  {
    assert (path + [c])[..|path|] == path;
  }

  /** The last part, lengthened. */
  function Lengthened(parts: seq<string>, name: string): seq<string>
    requires parts != []
  {
    parts[|parts| - 1 := parts[|parts| - 1] + name]
  }

  lemma LengthenedOnce(parts: seq<string>, name: string, c: char)
    requires parts != []
    ensures Lengthened(Lengthened(parts, name), [c]) == Lengthened(parts, name + [c])
  {
    assert parts[|parts| - 1] + name + [c] == parts[|parts| - 1] + (name + [c]);
  }

  /** A text without separators lengthens the last part. */
  lemma {:induction false} SplitName(path: string, name: string)
    requires forall i :: 0 <= i < |name| ==> name[i] !in SEPARATORS
    ensures Split(path + name) == Lengthened(Split(path), name)
  {
    if name == "" {
      assert path + name == path && Split(path)[|Split(path)| - 1] + name == Split(path)[|Split(path)| - 1];
    } else {
      var n := |name| - 1;
      SplitName(path, name[..n]);
      SplitNext(path, name[..n], name[n]);
      assert path + name[..n] + [name[n]] == path + name && name[..n] + [name[n]] == name;
    }
  }

  lemma SplitNext(path: string, name: string, c: char)
    requires Split(path + name) == Lengthened(Split(path), name) && c !in SEPARATORS
    ensures Split(path + name + [c]) == Lengthened(Split(path), name + [c])
  {
    SplitOneMore(path + name, c);
    LengthenedOnce(Split(path), name, c);
  }

  lemma NonEmptyOneMore(parts: seq<string>, part: string)
    ensures NonEmpty(parts + [part]) == NonEmpty(parts) + (if part == "" then [] else [part])
  {
    assert (parts + [part])[..|parts|] == parts;
  }

  lemma SeparatorAddsNoSegment(path: string, c: char)
    requires c in SEPARATORS
    ensures NonEmpty(Split(path + [c])) == NonEmpty(Split(path))
  {
    SplitOneMore(path, c);
    NonEmptyOneMore(Split(path), "");
  }

  /** What no separator at the end changes, no number of them changes. */
  lemma {:induction false} SeparatorsChangeNothing(of: string -> seq<string>, path: string, tail: string)
    requires OnlySeparators(tail) && forall p, c {:trigger of(p + [c])} :: c in SEPARATORS ==> of(p + [c]) == of(p)
    ensures of(path + tail) == of(path)
  {
    if tail == "" {
      assert path + tail == path;
    } else {
      var n := |tail| - 1;
      SeparatorsChangeNothing(of, path, tail[..n]);
      assert of(path + tail[..n] + [tail[n]]) == of(path + tail[..n]);
      assert path + tail[..n] + [tail[n]] == path + tail;
    }
  }

  /** Separators at the end add no segment. */
  lemma SegmentsBeforeSeparators(path: string, tail: string)
    requires OnlySeparators(tail)
    ensures NonEmpty(Split(path + tail)) == NonEmpty(Split(path))
  {
    var segments := (p: string) => NonEmpty(Split(p));
    forall p, c | c in SEPARATORS ensures segments(p + [c]) == segments(p) { SeparatorAddsNoSegment(p, c); }
    SeparatorsChangeNothing(segments, path, tail);
    assert segments(path + tail) == segments(path);
  }

  lemma SplitAfterSeparator(path: string, sep: char, name: string)
    requires sep in SEPARATORS && IsName(name)
    ensures Split(path + [sep] + name) == Split(path) + [name]
  {
    var parts := Split(path);
    SplitOneMore(path, sep);
    SplitName(path + [sep], name);
    assert "" + name == name;
  }

  /** A name after a separator, whatever separators follow, is the last segment. */
  lemma NameIsLastSegment(front: string, sep: char, name: string, tail: string)
    requires sep in SEPARATORS && IsName(name) && OnlySeparators(tail)
    ensures SplitKeySegments(front + [sep] + name + tail) == SplitKeySegments(front) + [name]
  {
    var path := WithoutDrive(front);
    DriveIsInFront(front, sep, name + tail);
    assert front + [sep] + name + tail == front + [sep] + (name + tail);
    assert path + [sep] + (name + tail) == path + [sep] + name + tail;
    SegmentsBeforeSeparators(path + [sep] + name, tail);
    SplitAfterSeparator(path, sep, name);
    NonEmptyOneMore(Split(path), name);
  }

  /** A name at the start of a key, past its drive if it has one, is its only segment. */
  lemma NameIsOnlySegment(drive: string, name: string, tail: string)
    requires IsName(name) && OnlySeparators(tail) && IsPast(drive, name + tail)
    ensures SplitKeySegments(drive + name + tail) == [name]
  {
    assert drive + name + tail == drive + (name + tail);
    DriveIsLeftOff(drive, name + tail);
    SegmentsBeforeSeparators(name, tail);
    SplitName("", name);
    assert "" + name == name && Split("")[0 := "" + name] == [name];
    NonEmptyOneMore([], name);
    assert [] + [name] == [name];
  }

  lemma SeparatorsAreNoSegment(drive: string, tail: string)
    requires OnlySeparators(tail) && IsPast(drive, tail)
    ensures SplitKeySegments(drive + tail) == []
  {
    DriveIsLeftOff(drive, tail);
    SegmentsBeforeSeparators("", tail);
    assert "" + tail == tail;
    NonEmptyOneMore([], "");
  }

  /** The key's last name: after a separator, or alone past the drive. */
  ghost predicate EndsIn(key: string, name: string) {
    && IsName(name)
    && (|| (exists front, sep, tail :: EndsAfter(key, front, sep, name, tail))
        || (exists drive, tail :: IsAlone(key, drive, name, tail)))
  }

  ghost predicate EndsAfter(key: string, front: string, sep: char, name: string, tail: string) {
    sep in SEPARATORS && OnlySeparators(tail) && key == front + [sep] + name + tail
  }

  ghost predicate IsAlone(key: string, drive: string, name: string, tail: string) {
    OnlySeparators(tail) && IsPast(drive, name + tail) && key == drive + name + tail
  }

  /** A key of a drive, if any, and separators only. */
  ghost predicate IsRoot(key: string, drive: string, tail: string) {
    OnlySeparators(tail) && IsPast(drive, tail) && key == drive + tail
  }

  /** The first label a key tries is its last name. */
  lemma LastNameIsTried(key: string, name: string)
    requires EndsIn(key, name)
    ensures LabelAt(key, 1) == name
  {
    if front, sep, tail :| EndsAfter(key, front, sep, name, tail) {
      NameIsLastSegment(front, sep, name, tail);
    } else {
      var drive, tail :| IsAlone(key, drive, name, tail);
      NameIsOnlySegment(drive, name, tail);
    }
  }

  /** Each longer label is the one of what comes before the last name, a slash, and that name. */
  lemma LongerLabelAddsTheNameBefore(key: string, front: string, sep: char, name: string, tail: string, depth: nat)
    requires IsName(name) && EndsAfter(key, front, sep, name, tail) && 1 <= depth <= |SplitKeySegments(front)|
    ensures LabelAt(key, depth + 1) == LabelAt(front, depth) + "/" + name
  {
    NameIsLastSegment(front, sep, name, tail);
    var segments, more := SplitKeySegments(front), SplitKeySegments(key);
    var taken := more[|more| - (depth + 1)..];
    assert taken == segments[|segments| - depth..] + [name];
    assert taken[..|taken| - 1] == segments[|segments| - depth..];
  }

  /** The segments of a key, counted in its text: none in a root, one in a name alone, one more after each separator. */
  lemma SegmentsAreCounted(key: string, name: string)
    requires IsName(name)
    ensures forall front, sep, tail :: EndsAfter(key, front, sep, name, tail) ==> |SplitKeySegments(key)| == |SplitKeySegments(front)| + 1
    ensures forall drive, tail :: IsAlone(key, drive, name, tail) ==> |SplitKeySegments(key)| == 1
    ensures forall drive, tail :: IsRoot(key, drive, tail) ==> |SplitKeySegments(key)| == 0
  {
    forall front, sep, tail | EndsAfter(key, front, sep, name, tail) ensures |SplitKeySegments(key)| == |SplitKeySegments(front)| + 1 {
      NameIsLastSegment(front, sep, name, tail);
    }
    forall drive, tail | IsAlone(key, drive, name, tail) ensures |SplitKeySegments(key)| == 1 { NameIsOnlySegment(drive, name, tail); }
    forall drive, tail | IsRoot(key, drive, tail) ensures |SplitKeySegments(key)| == 0 { SeparatorsAreNoSegment(drive, tail); }
  }

  /** Past its last segments a key is its own label. */
  lemma WholeKeyIsTriedLast(key: string, depth: nat)
    requires depth > |SplitKeySegments(key)|
    ensures LabelAt(key, depth) == key
  {
  }

  /** Every path ends in a name, or is separators only. */
  lemma {:induction false} PathEnds(path: string) returns (front: string, name: string, tail: string)
    ensures path == front + name + tail && OnlySeparators(tail)
    ensures if name == "" then front == "" else IsName(name) && (front == "" || front[|front| - 1] in SEPARATORS)
  {
    if path == "" {
      front, name, tail := "", "", "";
    } else {
      var n := |path| - 1;
      front, name, tail := PathEnds(path[..n]);
      assert path == front + name + tail + [path[n]];
      if path[n] in SEPARATORS {
        tail := tail + [path[n]];
      } else if tail == "" {
        name := name + [path[n]];
      } else {
        front, name, tail := path[..n], [path[n]], "";
      }
    }
  }

  /** The drive of a key and what is past it. */
  lemma KeyStarts(key: string) returns (drive: string, path: string)
    ensures key == drive + path && IsPast(drive, path)
  {
    if |key| >= 2 && IsDrive(key[..2]) {
      drive, path := key[..2], key[2..];
    } else {
      drive, path := "", key;
    }
  }

  lemma KeyEndsInNameOrIsRoot(key: string)
    ensures EndsIn(key, LabelAt(key, 1)) || LabelAt(key, 1) == key
  {
    var drive, path := KeyStarts(key);
    var front, name, tail := PathEnds(path);
    if name == "" {
      assert front + name + tail == tail;
      SeparatorsAreNoSegment(drive, tail);
    } else if front == "" {
      assert front + name + tail == name + tail;
      assert key == drive + name + tail;
      assert IsAlone(key, drive, name, tail);
      LastNameIsTried(key, name);
    } else {
      var before, sep := drive + front[..|front| - 1], front[|front| - 1];
      assert key == before + [sep] + name + tail;
      assert EndsAfter(key, before, sep, name, tail);
      LastNameIsTried(key, name);
    }
  }

  /** A key whose last name no other key ends in, or is, is labelled with it. */
  lemma UniqueLastNameIsTheLabel(keys: set<string>, key: string, name: string)
    requires key in keys && EndsIn(key, name) && name != UNATTRIBUTED_PROJECT_LABEL
    requires forall other :: other in keys && other != key ==> other != name && !EndsIn(other, name)
    ensures key in LabelsOf(keys) && LabelsOf(keys)[key] == name
  {
    LastNameIsTried(key, name);
    forall other | other in keys && LabelAt(other, 1) == LabelAt(key, 1) ensures other == key {
      KeyEndsInNameOrIsRoot(other);
    }
    UniqueLastSegmentIsTheLabel(keys, key);
  }

  // ----- computing the labels

  datatype PendingKey = PendingKey(segments: seq<string>, depth: nat) {
    predicate Spent() {
      depth >= |segments|
    }

    function Deeper(): PendingKey {
      PendingKey(segments, depth + 1)
    }
  }

  ghost predicate Tried(pending: map<string, PendingKey>, tails: map<string, string>) {
    && tails.Keys == pending.Keys
    && forall key :: key in pending ==> tails[key] == Tail(key, pending[key].segments, pending[key].depth)
  }

  ghost function Sharing(tails: map<string, string>, name: string): set<string> {
    set key | key in tails && tails[key] == name
  }

  /** The keys of `keys` by the label they try. */
  ghost predicate Grouped(keysByLabel: map<string, set<string>>, tails: map<string, string>, keys: set<string>)
    requires keys <= tails.Keys
  {
    && (forall key :: key in keys ==> tails[key] in keysByLabel)
    && (forall name :: name in keysByLabel ==> keysByLabel[name] != {} && keysByLabel[name] == Sharing(tails, name) * keys)
  }

  function AddTo(keysByLabel: map<string, set<string>>, name: string, key: string): map<string, set<string>> {
    keysByLabel[name := (if name in keysByLabel then keysByLabel[name] else {}) + {key}]
  }

  lemma GroupOne(keysByLabel: map<string, set<string>>, tails: map<string, string>, keys: set<string>, key: string)
    requires keys <= tails.Keys && key in tails && Grouped(keysByLabel, tails, keys)
    ensures Grouped(AddTo(keysByLabel, tails[key], key), tails, keys + {key})
  {
    var next := AddTo(keysByLabel, tails[key], key);
    forall name | name in next ensures next[name] != {} && next[name] == Sharing(tails, name) * (keys + {key}) {
      if name == tails[key] && name !in keysByLabel { assert Sharing(tails, name) * keys == {}; }
    }
  }

  ghost predicate AllGroups(keysByLabel: map<string, set<string>>, tails: map<string, string>) {
    && (forall key :: key in tails ==> tails[key] in keysByLabel)
    && (forall name :: name in keysByLabel ==> IsGroup(keysByLabel[name], tails, name))
  }

  ghost predicate IsGroup(group: set<string>, tails: map<string, string>, name: string) {
    group != {} && group == Sharing(tails, name)
  }

  lemma GroupedIsAllGroups(keysByLabel: map<string, set<string>>, tails: map<string, string>)
    requires Grouped(keysByLabel, tails, tails.Keys)
    ensures AllGroups(keysByLabel, tails)
  {
    forall name | name in keysByLabel ensures IsGroup(keysByLabel[name], tails, name) {
      assert Sharing(tails, name) * tails.Keys == Sharing(tails, name);
    }
  }

  method GroupByLabel(pending: map<string, PendingKey>, ghost tails: map<string, string>) returns (keysByLabel: map<string, set<string>>)
    requires Tried(pending, tails)
    ensures AllGroups(keysByLabel, tails)
  {
    keysByLabel := map[];
    var rest := pending.Keys;
    while rest != {}
      invariant rest <= tails.Keys && Grouped(keysByLabel, tails, tails.Keys - rest)
    {
      var key :| key in rest;
      var name := Tail(key, pending[key].segments, pending[key].depth);
      GroupOne(keysByLabel, tails, tails.Keys - rest, key);
      assert tails.Keys - (rest - {key}) == tails.Keys - rest + {key};
      keysByLabel := AddTo(keysByLabel, name, key);
      rest := rest - {key};
    }
    assert tails.Keys - {} == tails.Keys;
    GroupedIsAllGroups(keysByLabel, tails);
  }

  /** What a round works on: the maps at its start, and the label each key tries. */
  datatype RoundStart = RoundStart(st: Naming, entries: map<string, PendingKey>, tails: map<string, string>)

  ghost predicate Begun(r: RoundStart) {
    r.st.pending == r.entries.Keys == r.tails.Keys
  }

  /** The maps a round updates. */
  datatype RoundState = RoundState(labels: map<string, string>, pending: map<string, PendingKey>, taken: set<string>, out: set<string>)

  ghost function SeenWinners(r: RoundStart, seen: set<string>): set<string> {
    set key | key in Winners(r.tails, r.st.taken) && r.tails[key] in seen
  }

  /** Losers of the groups of `seen` with no segments left are out. */
  ghost predicate OutIs(r: RoundStart, seen: set<string>, out: set<string>)
    requires Begun(r)
  {
    forall key :: key in out <==> key in r.tails && r.tails[key] in seen && !Wins(r.tails, r.st.taken, key) && r.entries[key].Spent()
  }

  /** Losers of the groups of `seen` with segments left are one deeper. */
  ghost predicate EntriesAre(r: RoundStart, seen: set<string>, pending: map<string, PendingKey>)
    requires Begun(r)
  {
    forall key :: key in pending ==>
                    && key in r.tails
                    && pending[key] == if r.tails[key] in seen && !r.entries[key].Spent() then r.entries[key].Deeper() else r.entries[key]
  }

  /** The maps once the groups of `seen` are settled. */
  ghost predicate SettledUpTo(r: RoundStart, seen: set<string>, s: RoundState) {
    && Begun(r)
    && Naming(s.labels, s.pending.Keys, s.taken) == GiveTails(r.st, r.tails, SeenWinners(r, seen))
    && OutIs(r, seen, s.out) && EntriesAre(r, seen, s.pending)
  }

  lemma OnlyMemberWins(tails: map<string, string>, taken: set<string>, key: string)
    requires key in tails
    ensures Wins(tails, taken, key) <==> |Sharing(tails, tails[key])| == 1 && tails[key] !in taken
    ensures Wins(tails, taken, key) ==> Sharing(tails, tails[key]) == {key}
  {
    var group := Sharing(tails, tails[key]);
    SingletonIff(group, key);
    if Wins(tails, taken, key) { assert group == {key}; }
    if group == {key} {
      forall other | other in tails && tails[other] == tails[key] ensures other == key { assert other in group; }
    }
  }

  lemma GiveOneTail(st: Naming, tails: map<string, string>, winners: set<string>, key: string)
    requires winners <= tails.Keys && key in tails
    ensures GiveTails(st, tails, winners + {key}) == Give(GiveTails(st, tails, winners), key, tails[key])
  {
  }

  lemma SettleWinner(r: RoundStart, seen: set<string>, s: RoundState, key: string)
    requires SettledUpTo(r, seen, s)
    requires key in r.tails && r.tails[key] !in seen && Wins(r.tails, r.st.taken, key)
    ensures var name := r.tails[key];
      SettledUpTo(r, seen + {name}, RoundState(s.labels[key := name], s.pending - {key}, s.taken + {name}, s.out))
  {
    var name := r.tails[key];
    assert SeenWinners(r, seen + {name}) == SeenWinners(r, seen) + {key};
    GiveOneTail(r.st, r.tails, SeenWinners(r, seen), key);
    assert (s.pending - {key}).Keys == s.pending.Keys - {key};
  }

  /** Each key of a losing group is out of segments or goes one segment deeper. */
  ghost predicate Deepened(s: RoundState, group: set<string>, s': RoundState)
    requires group <= s.pending.Keys
  {
    && s'.labels == s.labels && s'.taken == s.taken && s'.pending.Keys == s.pending.Keys
    && (forall key :: key in s.pending ==>
                        s'.pending[key] == if key in group && !s.pending[key].Spent() then s.pending[key].Deeper() else s.pending[key])
    && forall key :: key in s'.out <==> key in s.out || (key in group && s.pending[key].Spent())
  }

  lemma LosersRunOut(r: RoundStart, seen: set<string>, s: RoundState, name: string, s': RoundState)
    requires Begun(r) && OutIs(r, seen, s.out) && EntriesAre(r, seen, s.pending) && name !in seen
    requires forall key :: key in Sharing(r.tails, name) ==> !Wins(r.tails, r.st.taken, key)
    requires Sharing(r.tails, name) <= s.pending.Keys && Deepened(s, Sharing(r.tails, name), s')
    ensures OutIs(r, seen + {name}, s'.out)
  {
    forall key | key in Sharing(r.tails, name) ensures s.pending[key] == r.entries[key] {
    }
  }

  lemma LosersGoDeeper(r: RoundStart, seen: set<string>, s: RoundState, name: string, s': RoundState)
    requires Begun(r) && EntriesAre(r, seen, s.pending) && name !in seen
    requires Sharing(r.tails, name) <= s.pending.Keys && Deepened(s, Sharing(r.tails, name), s')
    ensures EntriesAre(r, seen + {name}, s'.pending)
  {
  }

  lemma SettleLosers(r: RoundStart, seen: set<string>, s: RoundState, name: string, s': RoundState)
    requires SettledUpTo(r, seen, s) && name !in seen
    requires forall key :: key in Sharing(r.tails, name) ==> !Wins(r.tails, r.st.taken, key)
    requires Sharing(r.tails, name) <= s.pending.Keys && Deepened(s, Sharing(r.tails, name), s')
    ensures SettledUpTo(r, seen + {name}, s')
  {
    assert SeenWinners(r, seen + {name}) == SeenWinners(r, seen);
    LosersRunOut(r, seen, s, name, s');
    LosersGoDeeper(r, seen, s, name, s');
  }

  method DeepenGroup(group: set<string>, s: RoundState) returns (s': RoundState)
    requires group <= s.pending.Keys
    ensures Deepened(s, group, s')
  {
    var pending, out, rest := s.pending, s.out, group;
    while rest != {}
      invariant rest <= group && Deepened(s, group - rest, RoundState(s.labels, pending, s.taken, out))
    {
      var key :| key in rest;
      var entry := pending[key];
      assert group - (rest - {key}) == group - rest + {key};
      if entry.depth >= |entry.segments| {
        out := out + {key};
      } else {
        pending := pending[key := PendingKey(entry.segments, entry.depth + 1)];
      }
      rest := rest - {key};
    }
    assert group - {} == group;
    s' := RoundState(s.labels, pending, s.taken, out);
  }

  lemma GroupIsPending(r: RoundStart, seen: set<string>, s: RoundState, name: string)
    requires SettledUpTo(r, seen, s) && name !in seen
    ensures Sharing(r.tails, name) <= s.pending.Keys && (name in s.taken <==> name in r.st.taken)
  {
  }

  /** One round without its numbering: winners get their tail, losers go deeper or run out. */
  method SettleGroups(keysByLabel: map<string, set<string>>, ghost r: RoundStart, start: RoundState) returns (s: RoundState)
    requires AllGroups(keysByLabel, r.tails) && SettledUpTo(r, {}, start)
    ensures SettledUpTo(r, keysByLabel.Keys, s)
  {
    s := start;
    var rest := keysByLabel.Keys;
    assert rest - rest == {};
    while rest != {}
      invariant rest <= keysByLabel.Keys && SettledUpTo(r, keysByLabel.Keys - rest, s)
    {
      var name :| name in rest;
      OneFewerLeft(keysByLabel.Keys, rest, name);
      s := SettleGroup(keysByLabel[name], r, keysByLabel.Keys - rest, s, name);
      rest := rest - {name};
    }
    assert keysByLabel.Keys - {} == keysByLabel.Keys;
  }

  method SettleGroup(group: set<string>, ghost r: RoundStart, ghost seen: set<string>, s: RoundState, name: string) returns (s': RoundState)
    requires SettledUpTo(r, seen, s) && name !in seen
    requires IsGroup(group, r.tails, name)
    ensures SettledUpTo(r, seen + {name}, s')
  {
    GroupIsPending(r, seen, s, name);
    forall key | key in group ensures Wins(r.tails, r.st.taken, key) <==> |group| == 1 && name !in s.taken {
      OnlyMemberWins(r.tails, r.st.taken, key);
    }
    if |group| == 1 && name !in s.taken {
      var key :| key in group;
      SettleWinner(r, seen, s, key);
      s' := RoundState(s.labels[key := name], s.pending - {key}, s.taken + {name}, s.out);
    } else {
      s' := DeepenGroup(group, s);
      SettleLosers(r, seen, s, name, s');
    }
  }

  // ----- numbering

  ghost predicate Ascending(sorted: seq<string>) {
    forall i, j :: 0 <= i < j < |sorted| ==> Before(sorted[i], sorted[j])
  }

  ghost function Elements(s: seq<string>): set<string> {
    set x | x in s
  }

  method SortKeys(keys: set<string>) returns (sorted: seq<string>)
    ensures Ascending(sorted) && Elements(sorted) == keys
  {
    sorted := [];
    var rest := keys;
    while rest != {}
      invariant rest <= keys && Ascending(sorted) && Elements(sorted) == keys - rest
    {
      var key :| key in rest;
      sorted := InsertKey(sorted, key);
      rest := rest - {key};
    }
  }

  method InsertKey(sorted: seq<string>, key: string) returns (inserted: seq<string>)
    requires Ascending(sorted) && key !in sorted
    ensures Ascending(inserted) && Elements(inserted) == Elements(sorted) + {key}
  {
    var i := |sorted|;
    while i > 0 && Before(key, sorted[i - 1])
      invariant 0 <= i <= |sorted|
      invariant forall j :: i <= j < |sorted| ==> Before(key, sorted[j])
    {
      i := i - 1;
    }
    if i > 0 {
      OneIsBefore(key, sorted[i - 1]);
      forall j | 0 <= j < i ensures Before(sorted[j], key) {
        if j < i - 1 { BeforeIsTransitive(sorted[j], sorted[i - 1], key); }
      }
    }
    InsertionKeepsOrder(sorted, i, key);
    inserted := sorted[..i] + [key] + sorted[i..];
  }

  lemma InsertionKeepsOrder(sorted: seq<string>, i: nat, key: string)
    requires Ascending(sorted) && i <= |sorted|
    requires forall j :: 0 <= j < i ==> Before(sorted[j], key)
    requires forall j :: i <= j < |sorted| ==> Before(key, sorted[j])
    ensures Ascending(sorted[..i] + [key] + sorted[i..])
    ensures Elements(sorted[..i] + [key] + sorted[i..]) == Elements(sorted) + {key}
  {
    assert sorted == sorted[..i] + sorted[i..];
  }

  /** The first candidate no label given so far equals. */
  method NumberLabel(key: string, taken: set<string>) returns (numbered: string)
    ensures numbered == NumberedLabel(key, taken)
  {
    var name := FullLabel(key);
    numbered := name;
    var number := 2;
    ghost var left := taken;
    while numbered in taken
      invariant number >= 2 && numbered == Candidate(name, number - 1)
      invariant forall m :: 1 <= m < number - 1 ==> Candidate(name, m) in taken
      invariant forall t :: t in taken && t !in left ==> exists m :: 1 <= m < number - 1 && Candidate(name, m) == t
      invariant left <= taken
      decreases |left|
    {
      forall m | 1 <= m < number - 1 ensures Candidate(name, m) != numbered {
        if Candidate(name, m) == numbered { CandidatesDiffer(name, m, number - 1); }
      }
      assert numbered in left;
      left := left - {numbered};
      numbered := name + " #" + Decimal(number);
      number := number + 1;
    }
    NumberedLabelIs(key, taken, number - 1);
  }

  lemma LeastIsFirst(sorted: seq<string>)
    requires Ascending(sorted) && sorted != []
    ensures IsLeast(sorted[0], Elements(sorted)) && Elements(sorted) - {sorted[0]} == Elements(sorted[1..])
  {
    assert sorted == [sorted[0]] + sorted[1..];
    if sorted[0] in sorted[1..] { OneIsBefore(sorted[0], sorted[0]); }
  }

  lemma NumberFirst(st: Naming, sorted: seq<string>)
    requires Ascending(sorted) && sorted != []
    ensures GiveNumbered(st, Elements(sorted)) ==
      GiveNumbered(Give(st, sorted[0], NumberedLabel(sorted[0], st.taken)), Elements(sorted[1..]))
  {
    var keys := Elements(sorted);
    LeastIsFirst(sorted);
    LeastIsUnique(sorted[0], Least(keys), keys);
  }

  ghost predicate Within(a: map<string, PendingKey>, b: map<string, PendingKey>) {
    forall key :: key in a ==> key in b && a[key] == b[key]
  }

  /** Exhausted keys in code point order, each with the first number free by then. */
  method NumberKeys(sorted: seq<string>, labels: map<string, string>, pending: map<string, PendingKey>, taken: set<string>)
    returns (labels': map<string, string>, pending': map<string, PendingKey>, taken': set<string>)
    requires Ascending(sorted)
    ensures Naming(labels', pending'.Keys, taken') == GiveNumbered(Naming(labels, pending.Keys, taken), Elements(sorted))
    ensures Within(pending', pending)
  {
    labels', pending', taken' := labels, pending, taken;
    ghost var left := sorted;
    for i := 0 to |sorted|
      invariant left == sorted[i..] && Ascending(left) && Within(pending', pending)
      invariant GiveNumbered(Naming(labels', pending'.Keys, taken'), Elements(left)) ==
        GiveNumbered(Naming(labels, pending.Keys, taken), Elements(sorted))
    {
      var key := sorted[i];
      NumberFirst(Naming(labels', pending'.Keys, taken'), left);
      var numbered := NumberLabel(key, taken');
      labels', taken' := labels'[key := numbered], taken' + {numbered};
      pending' := pending' - {key};
      left := left[1..];
    }
  }

  // ----- the whole

  predicate AtDepth(pending: map<string, PendingKey>, depth: nat) {
    forall key :: key in pending ==> pending[key] == PendingKey(SplitKeySegments(key), depth)
  }

  /** With every group settled, the round's winners are served and its exhausted losers known. */
  lemma AllSettled(r: RoundStart, depth: nat, seen: set<string>, s: RoundState)
    requires Begun(r) && AtDepth(r.entries, depth) && r.tails == TailsAt(r.st.pending, depth)
    requires SettledUpTo(r, seen, s) && forall key :: key in r.tails ==> r.tails[key] in seen
    ensures Naming(s.labels, s.pending.Keys, s.taken) == AfterWinners(r.st, depth) && s.out == Losers(r.st, depth)
    ensures s.out <= s.pending.Keys && forall key :: key in s.pending && key !in s.out ==> s.pending[key] == PendingKey(SplitKeySegments(key), depth + 1)
  {
    assert SeenWinners(r, seen) == Winners(r.tails, r.st.taken);
  }

  method NameRound(labels: map<string, string>, pending: map<string, PendingKey>, taken: set<string>, ghost depth: nat)
    returns (labels': map<string, string>, pending': map<string, PendingKey>, taken': set<string>)
    requires AtDepth(pending, depth)
    ensures Naming(labels', pending'.Keys, taken') == Round(Naming(labels, pending.Keys, taken), depth)
    ensures AtDepth(pending', depth + 1)
  {
    ghost var st := Naming(labels, pending.Keys, taken);
    ghost var r := RoundStart(st, pending, TailsAt(st.pending, depth));
    var keysByLabel := GroupByLabel(pending, r.tails);
    NothingSettled(r);
    var s := SettleGroups(keysByLabel, r, RoundState(labels, pending, taken, {}));
    AllSettled(r, depth, keysByLabel.Keys, s);
    var sorted := SortKeys(s.out);
    labels', pending', taken' := NumberKeys(sorted, s.labels, s.pending, s.taken);
    NumberedAreGiven(AfterWinners(st, depth), s.out);
  }

  lemma NothingSettled(r: RoundStart)
    requires Begun(r)
    ensures SettledUpTo(r, {}, RoundState(r.st.labels, r.entries, r.st.taken, {}))
  {
    assert SeenWinners(r, {}) == {};
  }

  function Values(keys: seq<Option<string>>, n: nat): set<string>
    requires n <= |keys|
  {
    set i | 0 <= i < n && keys[i].Some? :: keys[i].value
  }

  /**
     The labels depend on the set of keys alone: not on their order, on repeats, or on the
     order in which the maps are walked. A missing root is the reserved label.
   */
  method BuildProjectLabels(keys: seq<Option<string>>) returns (labels: map<string, string>, unattributed: Option<string>)
    ensures labels == LabelsOf(Values(keys, |keys|))
    ensures unattributed == if None in keys then Some(UNATTRIBUTED_PROJECT_LABEL) else None
  {
    var pending;
    pending, unattributed := CollectKeys(keys);
    labels := map[];
    var taken := {UNATTRIBUTED_PROJECT_LABEL};
    ghost var depth := 1;
    while pending.Keys != {}
      invariant AtDepth(pending, depth)
      invariant Rounds(Naming(labels, pending.Keys, taken), depth) == Rounds(Start(Values(keys, |keys|)), 1)
      decreases Left(Naming(labels, pending.Keys, taken), depth)
    {
      RoundCountsDown(Naming(labels, pending.Keys, taken), depth);
      RoundsUnfold(Naming(labels, pending.Keys, taken), depth);
      labels, pending, taken := NameRound(labels, pending, taken, depth);
      depth := depth + 1;
    }
    RoundsUnfold(Naming(labels, pending.Keys, taken), depth);
  }

  method CollectKeys(keys: seq<Option<string>>) returns (pending: map<string, PendingKey>, unattributed: Option<string>)
    ensures pending.Keys == Values(keys, |keys|) && AtDepth(pending, 1)
    ensures unattributed == if None in keys then Some(UNATTRIBUTED_PROJECT_LABEL) else None
  {
    pending, unattributed := map[], None;
    for i := 0 to |keys|
      invariant pending.Keys == Values(keys, i) && AtDepth(pending, 1)
      invariant unattributed == if None in keys[..i] then Some(UNATTRIBUTED_PROJECT_LABEL) else None
    {
      match keys[i] {
        case None => unattributed := Some(UNATTRIBUTED_PROJECT_LABEL);
        case Some(key) =>
          if key !in pending { pending := pending[key := PendingKey(SplitKeySegments(key), 1)]; }
      }
    }
    assert keys[..|keys|] == keys;
  }
}
