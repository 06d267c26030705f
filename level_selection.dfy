/**
 * The level-selection screen: the play order of the level files (by the
 * first number in each file name), lookups in that order, and the lock
 * state of each level button.
 */
module LevelSelection {
  import opened Geometry
  import opened Wrappers
  import opened Numerals
  import Sorting
  import opened Progression

  /* ---------- Level numbers ---------- */

  /** The first index at or after `i` holding a digit, or `|s|`. */
  function SkipNonDigits(s: string, i: nat): (k: nat)
    requires i <= |s|
    ensures i <= k <= |s|
    ensures forall m :: i <= m < k ==> !IsDigit(s[m])
    ensures k < |s| ==> IsDigit(s[k])
    decreases |s| - i
  {
    if i == |s| || IsDigit(s[i]) then i else SkipNonDigits(s, i + 1)
  }

  /** The first index at or after `i` not holding a digit, or `|s|`. */
  function SkipDigits(s: string, i: nat): (k: nat)
    requires i <= |s|
    ensures i <= k <= |s|
    ensures forall m :: i <= m < k ==> IsDigit(s[m])
    ensures k < |s| ==> !IsDigit(s[k])
    decreases |s| - i
  {
    if i == |s| || !IsDigit(s[i]) then i else SkipDigits(s, i + 1)
  }

  /** `s[i..j]` is the leftmost longest run of digits: what the pattern `(\d+)` matches first. */
  predicate IsFirstDigitRun(s: string, i: int, j: int) {
    0 <= i < j <= |s|
    && AllDigits(s[i..j])
    && (forall m :: 0 <= m < i ==> !IsDigit(s[m]))
    && (j == |s| || !IsDigit(s[j]))
  }

  /**
   * The number a level file name sorts by: the value of its first digit
   * run, or `int.MaxValue` when the name is empty, has no digits, or the
   * run does not fit an `int`.
   */
  function GetLevelNumberFromName(name: string): (n: int)
    ensures 0 <= n <= IntMax
    ensures (forall m :: 0 <= m < |name| ==> !IsDigit(name[m])) ==> n == IntMax
  {
    if |name| == 0 then IntMax
    else
      var i := SkipNonDigits(name, 0);
      if i == |name| then IntMax
      else
        var j := SkipDigits(name, i);
        ParseDigits(name[i..j]);
        match TryParseInt(name[i..j])
        case Some(num) => num
        case None => IntMax
  }

  /** The level number is the value of the first digit run when that fits an `int`. */
  lemma LevelNumberOfFirstRun(name: string, i: int, j: int)
    requires IsFirstDigitRun(name, i, j)
    ensures GetLevelNumberFromName(name) ==
      if DigitsValue(name[i..j]) <= IntMax then DigitsValue(name[i..j]) else IntMax
  {
    forall m | i <= m < j ensures IsDigit(name[m]) {
      assert name[i..j][m - i] == name[m];
    }
    assert IsDigit(name[i]);
    var i' := SkipNonDigits(name, 0);
    assert i' < |name| ==> IsDigit(name[i']);
    assert i' == i;
    var j' := SkipDigits(name, i);
    assert j' < |name| ==> !IsDigit(name[j']);
    assert j' == j;
    ParseDigits(name[i..j]);
  }

  /** "Level_07", "Level_07_hard" and "stage07" are all level 7. */
  lemma LevelNumberOf(prefix: string, n: int, suffix: string)
    requires forall m :: 0 <= m < |prefix| ==> !IsDigit(prefix[m])
    requires 0 <= n <= IntMax
    requires suffix == [] || !IsDigit(suffix[0])
    ensures GetLevelNumberFromName(prefix + FormatD2(n) + suffix) == n
  {
    var name := prefix + FormatD2(n) + suffix;
    var i, j := |prefix|, |prefix| + |FormatD2(n)|;
    ParseFormatD2(n);
    PadLeftValue(Digits(n), 2);
    DigitsRoundTrip(n);
    assert name[i..j] == FormatD2(n);
    if j < |name| {
      assert name[j] == suffix[0];
    }
    assert IsFirstDigitRun(name, i, j);
    LevelNumberOfFirstRun(name, i, j);
  }

  /* ---------- Play order ---------- */

  /** The (level number, file name) pair the order is sorted by. */
  function Entry(name: string): (int, string) {
    (GetLevelNumberFromName(name), name)
  }

  function PairKey(p: (int, string)): int {
    p.0
  }

  function Entries(names: seq<string>): (r: seq<(int, string)>)
    ensures |r| == |names|
    ensures forall k :: 0 <= k < |names| ==> r[k] == Entry(names[k])
  {
    seq(|names|, k requires 0 <= k < |names| => Entry(names[k]))
  }

  function Names(pairs: seq<(int, string)>): (r: seq<string>)
    ensures |r| == |pairs|
    ensures forall k :: 0 <= k < |pairs| ==> r[k] == pairs[k].1
  {
    seq(|pairs|, k requires 0 <= k < |pairs| => pairs[k].1)
  }

  /** File names in non-decreasing level-number order. */
  predicate InLevelOrder(names: seq<string>) {
    forall i, j :: 0 <= i < j < |names| ==> GetLevelNumberFromName(names[i]) <= GetLevelNumberFromName(names[j])
  }

  lemma {:induction false} EntriesCount(names: seq<string>, x: string)
    ensures multiset(Entries(names))[Entry(x)] == multiset(names)[x]
  {
    if names != [] {
      var init, last := names[..|names| - 1], names[|names| - 1];
      EntriesCount(init, x);
      assert names == init + [last];
      assert Entries(names) == Entries(init) + [Entry(last)];
    }
  }

  /** With every pair keyed by `key` of its name, a name is listed as often as its pair is. */
  lemma {:induction false} NamesCount(pairs: seq<(int, string)>, x: string, key: string -> int)
    requires forall k :: 0 <= k < |pairs| ==> pairs[k] == (key(pairs[k].1), pairs[k].1)
    ensures multiset(Names(pairs))[x] == multiset(pairs)[(key(x), x)]
  {
    if pairs != [] {
      var init, last := pairs[..|pairs| - 1], pairs[|pairs| - 1];
      assert forall k :: 0 <= k < |init| ==> init[k] == pairs[k];
      NamesCount(init, x, key);
      assert pairs == init + [last];
      assert Names(pairs) == Names(init) + [last.1];
    }
  }

  /**
   * Sorting the (number, name) pairs by number and keeping the names
   * gives the file names, each as often as it was loaded, in level-number
   * order.
   */
  lemma SortedEntries(names: seq<string>)
    ensures multiset(Names(Sorting.SortBy(Entries(names), PairKey))) == multiset(names)
    ensures InLevelOrder(Names(Sorting.SortBy(Entries(names), PairKey)))
  {
    var e := Entries(names);
    var r := Sorting.SortBy(e, PairKey);
    forall k | 0 <= k < |r| ensures r[k] == (GetLevelNumberFromName(r[k].1), r[k].1) {
      Sorting.ElementOfPermutation(r, e, k);
    }
    forall x ensures multiset(Names(r))[x] == multiset(names)[x] {
      NamesCount(r, x, GetLevelNumberFromName);
      EntriesCount(names, x);
    }
    assert multiset(Names(r)) == multiset(names);
    forall i, j | 0 <= i < j < |r| ensures GetLevelNumberFromName(Names(r)[i]) <= GetLevelNumberFromName(Names(r)[j]) {
      assert PairKey(r[i]) <= PairKey(r[j]);
    }
  }

  /** The first loop: one (number, name) pair per loaded level file. */
  method BuildEntries(levelAssets: seq<string>) returns (levelsToSort: seq<(int, string)>)
    ensures levelsToSort == Entries(levelAssets)
  {
    levelsToSort := [];
    for i := 0 to |levelAssets|
      invariant |levelsToSort| == i
      invariant forall k :: 0 <= k < i ==> levelsToSort[k] == Entry(levelAssets[k])
    {
      var levelNumber := GetLevelNumberFromName(levelAssets[i]);
      levelsToSort := levelsToSort + [(levelNumber, levelAssets[i])];
    }
  }

  /** The second loop: the names of the sorted pairs, in order. */
  method NamesOf(levelsToSort: seq<(int, string)>) returns (names: seq<string>)
    ensures names == Names(levelsToSort)
  {
    names := [];
    for i := 0 to |levelsToSort|
      invariant |names| == i
      invariant forall k :: 0 <= k < i ==> names[k] == levelsToSort[k].1
    {
      names := names + [levelsToSort[i].1];
    }
  }

  /* ---------- Lookups ---------- */

  /** `List.IndexOf`: the first position of `x`, or -1. */
  function IndexOf(list: seq<string>, x: string): (i: int)
    ensures -1 <= i < |list|
    ensures i == -1 <==> x !in list
    ensures 0 <= i ==> list[i] == x && x !in list[..i]
  {
    if list == [] then -1
    else if list[0] == x then 0
    else
      var j := IndexOf(list[1..], x);
      assert j >= 0 ==> list[..j + 1] == [list[0]] + list[1..][..j];
      if j == -1 then -1 else j + 1
  }

  /** The first listing of `x` comes before the last entry exactly when `x` is listed before the last entry. */
  lemma IndexBeforeLast(list: seq<string>, x: string)
    requires |list| > 0
    ensures 0 <= IndexOf(list, x) < |list| - 1 <==> x in list[..|list| - 1]
  {
    var c := IndexOf(list, x);
    if 0 <= c < |list| - 1 {
      assert list[..|list| - 1][c] == x;
    }
    if x in list[..|list| - 1] {
      var k :| 0 <= k < |list| - 1 && list[..|list| - 1][k] == x;
      assert list[k] == x;
      forall m | 0 <= m < c ensures list[m] != x {
        assert list[..c][m] == list[m];
      }
    }
  }

  /* ---------- Buttons ---------- */

  /** The arguments a level button is set up with. */
  datatype LevelButtonSetup = LevelButtonSetup(displayName: string, levelFileNameKey: string, stars: int, isLocked: bool)

  /** The names of the levels whose buttons are unlocked. */
  function UnlockedNames(list: seq<string>, buttons: seq<LevelButtonSetup>): set<string>
    requires |buttons| <= |list|
  {
    set j | 0 <= j < |buttons| && !buttons[j].isLocked :: list[j]
  }

  /** One more button adds its level to the unlocked names exactly when it is unlocked. */
  lemma UnlockedNamesSnoc(list: seq<string>, buttons: seq<LevelButtonSetup>, b: LevelButtonSetup)
    requires |buttons| < |list|
    ensures UnlockedNames(list, buttons + [b]) ==
      UnlockedNames(list, buttons) + (if b.isLocked then {} else {list[|buttons|]})
  {
    var bs := buttons + [b];
    forall n ensures n in UnlockedNames(list, bs) <==> n in UnlockedNames(list, buttons) || (!b.isLocked && n == list[|buttons|]) {
      if n in UnlockedNames(list, bs) {
        var j :| 0 <= j < |bs| && !bs[j].isLocked && list[j] == n;
        if j < |buttons| {
          assert bs[j] == buttons[j];
        }
      }
      if n in UnlockedNames(list, buttons) {
        var j :| 0 <= j < |buttons| && !buttons[j].isLocked && list[j] == n;
        assert bs[j] == buttons[j];
      }
      if !b.isLocked && n == list[|buttons|] {
        assert bs[|buttons|] == b;
      }
    }
  }

  /** The lock rule applied to the `i`-th level. */
  predicate LockedByRule(list: seq<string>, buttons: seq<LevelButtonSetup>, i: int,
                         previousRating: int, wasUnlocked: bool)
    requires 0 < i < |list| && i <= |buttons|
  {
    !(previousRating > 0 || wasUnlocked || list[i] in UnlockedNames(list, buttons[..i]))
  }

  /**
   * The loop body: sets up the button of the `i`-th level. The first
   * level is unlocked and never locked; a later level is unlocked when the
   * level before it has a rating, and locked unless it is unlocked by then.
   */
  method SetUpButton(list: seq<string>, i: int, store: ProgressionStore) returns (b: LevelButtonSetup)
    requires 0 <= i < |list|
    modifies store
    ensures b.displayName == "Level " + Digits(i + 1)
    ensures b.levelFileNameKey == list[i] && b.stars == StarRating(old(store.prefs), list[i])
    ensures b.isLocked <==>
      !(i == 0 || StarRating(old(store.prefs), list[i - 1]) > 0 || LevelUnlocked(old(store.prefs), list[i]))
    ensures forall n :: LevelUnlocked(store.prefs, n) <==>
      LevelUnlocked(old(store.prefs), n) || (n == list[i] && !b.isLocked)
    ensures forall n :: StarRating(store.prefs, n) == StarRating(old(store.prefs), n)
    ensures old(store.Valid()) ==> store.Valid()
  {
    var levelFileNameKey := list[i];
    var displayName := "Level " + Digits(i + 1);
    var stars := store.GetStarRating(levelFileNameKey);
    var isLocked;
    if i == 0 {
      isLocked := false;
      if !store.IsLevelUnlocked(levelFileNameKey) {
        store.UnlockLevel(levelFileNameKey);
      }
    } else {
      var previousLevelWon := store.GetStarRating(list[i - 1]) > 0;
      if previousLevelWon && !store.IsLevelUnlocked(levelFileNameKey) {
        store.UnlockLevel(levelFileNameKey);
      }
      isLocked := !store.IsLevelUnlocked(levelFileNameKey);
    }
    b := LevelButtonSetup(displayName, levelFileNameKey, stars, isLocked);
    forall n ensures LevelUnlocked(store.prefs, n) == store.IsLevelUnlocked(n)
                 && LevelUnlocked(old(store.prefs), n) == old(store.IsLevelUnlocked(n))
                 && StarRating(store.prefs, n) == store.GetStarRating(n)
                 && StarRating(old(store.prefs), n) == old(store.GetStarRating(n)) {
    }
  }

  /**
   * One button per level in play order, each locked by the rule of
   * `SetUpButton` applied in order; the store gains exactly the unlocks of
   * the unlocked buttons and keeps its ratings.
   */
  method SetUpButtons(list: seq<string>, store: ProgressionStore) returns (buttons: seq<LevelButtonSetup>)
    modifies store
    ensures |buttons| == |list|
    ensures forall i :: 0 <= i < |list| ==>
      buttons[i].displayName == "Level " + Digits(i + 1)
      && buttons[i].levelFileNameKey == list[i]
      && buttons[i].stars == StarRating(old(store.prefs), list[i])
    ensures forall n :: StarRating(store.prefs, n) == StarRating(old(store.prefs), n)
    ensures |list| > 0 ==> !buttons[0].isLocked
    ensures forall i :: 0 < i < |list| ==>
      (buttons[i].isLocked <==>
        LockedByRule(list, buttons, i, StarRating(old(store.prefs), list[i - 1]), LevelUnlocked(old(store.prefs), list[i])))
    ensures forall n :: LevelUnlocked(store.prefs, n) <==> LevelUnlocked(old(store.prefs), n) || n in UnlockedNames(list, buttons)
  {
    ghost var prefs0 := store.prefs;
    buttons := [];
    var i := 0;
    while i < |list|
      invariant 0 <= i <= |list| && |buttons| == i
      invariant SetUpSoFar(list, prefs0, store.prefs, buttons)
    {
      ghost var before := store.prefs;
      var b := SetUpButton(list, i, store);
      assert ButtonMade(list, i, before, store.prefs, b);
      SetUpSoFarStep(list, prefs0, before, store.prefs, buttons, b);
      buttons := buttons + [b];
      i := i + 1;
    }
  }

  /**
   * The loop invariant of `SetUpButtons` over values: the buttons made so
   * far from the store as it was (`prefs0`) and the store as it is now
   * (`prefs`).
   */
  ghost predicate SetUpSoFar(list: seq<string>, prefs0: map<string, int>, prefs: map<string, int>,
                             buttons: seq<LevelButtonSetup>)
  {
    |buttons| <= |list|
    && LabelledSoFar(list, prefs0, buttons)
    && RatingsKept(prefs0, prefs)
    && LockedSoFar(list, prefs0, buttons)
    && OpenSoFar(list, prefs0, prefs, buttons)
  }

  /** Each button made so far names its level, its number and its rating in `prefs0`. */
  ghost predicate LabelledSoFar(list: seq<string>, prefs0: map<string, int>, buttons: seq<LevelButtonSetup>)
    requires |buttons| <= |list|
  {
    forall k :: 0 <= k < |buttons| ==>
      buttons[k].displayName == "Level " + Digits(k + 1)
      && buttons[k].levelFileNameKey == list[k]
      && buttons[k].stars == StarRating(prefs0, list[k])
  }

  /** Every level has the same rating in `prefs` as in `prefs0`. */
  ghost predicate RatingsKept(prefs0: map<string, int>, prefs: map<string, int>) {
    forall n :: StarRating(prefs, n) == StarRating(prefs0, n)
  }

  /** The first button made so far is open, and each later one is locked by the lock rule. */
  ghost predicate LockedSoFar(list: seq<string>, prefs0: map<string, int>, buttons: seq<LevelButtonSetup>)
    requires |buttons| <= |list|
  {
    (|buttons| > 0 ==> !buttons[0].isLocked)
    && forall k :: 0 < k < |buttons| ==>
      (buttons[k].isLocked <==> LockedByRule(list, buttons, k, StarRating(prefs0, list[k - 1]), LevelUnlocked(prefs0, list[k])))
  }

  /** The levels open in `prefs` are those open in `prefs0` and those of the open buttons made so far. */
  ghost predicate OpenSoFar(list: seq<string>, prefs0: map<string, int>, prefs: map<string, int>, buttons: seq<LevelButtonSetup>)
    requires |buttons| <= |list|
  {
    forall n :: LevelUnlocked(prefs, n) <==> LevelUnlocked(prefs0, n) || n in UnlockedNames(list, buttons)
  }

  /** `SetUpButton` made `b` for the `i`-th level, taking the store from `prefs` to `prefs'`. */
  ghost predicate ButtonMade(list: seq<string>, i: int, prefs: map<string, int>, prefs': map<string, int>, b: LevelButtonSetup)
    requires 0 <= i < |list|
  {
    b.displayName == "Level " + Digits(i + 1)
    && b.levelFileNameKey == list[i] && b.stars == StarRating(prefs, list[i])
    && (b.isLocked <==> !(i == 0 || StarRating(prefs, list[i - 1]) > 0 || LevelUnlocked(prefs, list[i])))
    && (forall n :: LevelUnlocked(prefs', n) <==> LevelUnlocked(prefs, n) || (n == list[i] && !b.isLocked))
    && RatingsKept(prefs, prefs')
  }

  /** One more button made by `SetUpButton` keeps the loop invariant of `SetUpButtons`. */
  lemma SetUpSoFarStep(list: seq<string>, prefs0: map<string, int>, prefs: map<string, int>, prefs': map<string, int>,
                       buttons: seq<LevelButtonSetup>, b: LevelButtonSetup)
    requires |buttons| < |list| && SetUpSoFar(list, prefs0, prefs, buttons)
    requires ButtonMade(list, |buttons|, prefs, prefs', b)
    ensures SetUpSoFar(list, prefs0, prefs', buttons + [b])
  {
    LabelledStep(list, prefs0, prefs, prefs', buttons, b);
    LockedSoFarStep(list, prefs0, prefs, prefs', buttons, b);
    OpenStep(list, prefs0, prefs, prefs', buttons, b);
    RatingsKeptStep(prefs0, prefs, prefs');
  }

  /** Ratings kept twice are kept. */
  lemma RatingsKeptStep(prefs0: map<string, int>, prefs: map<string, int>, prefs': map<string, int>)
    requires RatingsKept(prefs0, prefs) && RatingsKept(prefs, prefs')
    ensures RatingsKept(prefs0, prefs')
  {
  }

  /** The levels open after one more button are those open before and that button's level if it is open. */
  lemma OpenStep(list: seq<string>, prefs0: map<string, int>, prefs: map<string, int>, prefs': map<string, int>,
                 buttons: seq<LevelButtonSetup>, b: LevelButtonSetup)
    requires |buttons| < |list| && OpenSoFar(list, prefs0, prefs, buttons)
    requires ButtonMade(list, |buttons|, prefs, prefs', b)
    ensures OpenSoFar(list, prefs0, prefs', buttons + [b])
  {
    UnlockedNamesSnoc(list, buttons, b);
  }

  /** A button labelled for the next level keeps every button labelled. */
  lemma LabelledStep(list: seq<string>, prefs0: map<string, int>, prefs: map<string, int>, prefs': map<string, int>,
                     buttons: seq<LevelButtonSetup>, b: LevelButtonSetup)
    requires |buttons| < |list| && LabelledSoFar(list, prefs0, buttons) && RatingsKept(prefs0, prefs)
    requires ButtonMade(list, |buttons|, prefs, prefs', b)
    ensures LabelledSoFar(list, prefs0, buttons + [b])
  {
    var bs := buttons + [b];
    forall k | 0 <= k < |bs|
      ensures bs[k].displayName == "Level " + Digits(k + 1)
      ensures bs[k].levelFileNameKey == list[k] && bs[k].stars == StarRating(prefs0, list[k])
    {
      if k < |buttons| {
        assert bs[k] == buttons[k];
      } else {
        assert k == |buttons| && bs[k] == b;
      }
    }
  }

  /** A button locked by the lock rule for the next level keeps every button locked by it. */
  lemma LockedSoFarStep(list: seq<string>, prefs0: map<string, int>, prefs: map<string, int>, prefs': map<string, int>,
                        buttons: seq<LevelButtonSetup>, b: LevelButtonSetup)
    requires |buttons| < |list| && LockedSoFar(list, prefs0, buttons)
    requires RatingsKept(prefs0, prefs) && OpenSoFar(list, prefs0, prefs, buttons)
    requires ButtonMade(list, |buttons|, prefs, prefs', b)
    ensures LockedSoFar(list, prefs0, buttons + [b])
  {
    var i := |buttons|;
    var bs := buttons + [b];
    LockedByRuleSnoc(list, buttons, b);
    if i > 0 {
      var rating := StarRating(prefs0, list[i - 1]);
      assert StarRating(prefs, list[i - 1]) == rating;
      var wasUnlocked := LevelUnlocked(prefs0, list[i]);
      LockedStep(list, buttons, b, rating, wasUnlocked, LevelUnlocked(prefs, list[i]));
      assert bs[0] == buttons[0];
    }
    forall k | 0 < k < |bs|
      ensures bs[k].isLocked <==> LockedByRule(list, bs, k, StarRating(prefs0, list[k - 1]), LevelUnlocked(prefs0, list[k]))
    {
      if k < i {
        assert bs[k] == buttons[k];
      } else {
        assert k == i && bs[k] == b;
      }
    }
  }

  /** Appending a button leaves the lock rule of the buttons before it as it was. */
  lemma LockedByRuleSnoc(list: seq<string>, buttons: seq<LevelButtonSetup>, b: LevelButtonSetup)
    requires |buttons| < |list|
    ensures forall k, rating, wasUnlocked :: 0 < k < |buttons| ==>
      LockedByRule(list, buttons + [b], k, rating, wasUnlocked) == LockedByRule(list, buttons, k, rating, wasUnlocked)
  {
    forall k | 0 <= k <= |buttons| ensures (buttons + [b])[..k] == buttons[..k] {
    }
  }

  /** The button just appended is locked exactly as the lock rule says. */
  lemma LockedStep(list: seq<string>, buttons: seq<LevelButtonSetup>, b: LevelButtonSetup,
                   rating: int, wasUnlocked: bool, unlockedBefore: bool)
    requires 0 < |buttons| < |list|
    requires unlockedBefore == (wasUnlocked || list[|buttons|] in UnlockedNames(list, buttons))
    requires b.isLocked <==> !(rating > 0 || unlockedBefore)
    ensures LockedByRule(list, buttons + [b], |buttons|, rating, wasUnlocked) == b.isLocked
  {
    assert (buttons + [b])[..|buttons|] == buttons;
  }

  /**
   * When no level is listed twice, a later level is locked exactly when
   * the level before it has no rating and it was not unlocked already.
   */
  lemma LockedWhenDistinct(list: seq<string>, buttons: seq<LevelButtonSetup>, i: int, previousRating: int, wasUnlocked: bool)
    requires Distinct(list) && |buttons| == |list| && 0 < i < |list|
    ensures LockedByRule(list, buttons, i, previousRating, wasUnlocked) <==> !(previousRating > 0 || wasUnlocked)
  {
    forall j | 0 <= j < i ensures list[j] != list[i] {
    }
    assert list[i] !in UnlockedNames(list, buttons[..i]);
  }

  /* ---------- The screen's static state ---------- */

  /** The level order shared by every screen, built once from the loaded level files. */
  class LevelSelectionManager {
    var sortedLevelFileNames: seq<string>
    var staticListInitialized: bool

    constructor()
      ensures sortedLevelFileNames == [] && !staticListInitialized
    {
      sortedLevelFileNames := [];
      staticListInitialized := false;
    }

    /**
     * Builds the order on first use from the names of the loaded level
     * files: every file exactly once, in level-number order. Later calls
     * change nothing.
     */
    method EnsureLevelOrderInitialized(levelAssets: seq<string>)
      modifies this
      ensures staticListInitialized
      ensures old(staticListInitialized) ==> sortedLevelFileNames == old(sortedLevelFileNames)
      ensures !old(staticListInitialized) ==>
        multiset(sortedLevelFileNames) == multiset(levelAssets) && InLevelOrder(sortedLevelFileNames)
    {
      if staticListInitialized {
        return;
      }
      sortedLevelFileNames := [];
      if |levelAssets| == 0 {
        staticListInitialized := true;
        return;
      }
      var levelsToSort := BuildEntries(levelAssets);
      levelsToSort := Sorting.SortBy(levelsToSort, PairKey);
      SortedEntries(levelAssets);
      sortedLevelFileNames := NamesOf(levelsToSort);
      staticListInitialized := true;
    }

    /**
     * The level after `currentLevelFileName` in play order: none when the
     * name is not listed or its first listing is the last entry.
     */
    method GetNextLevelInSequence(levelAssets: seq<string>, currentLevelFileName: string) returns (next: Option<string>)
      modifies this
      ensures staticListInitialized
      ensures old(staticListInitialized) ==> sortedLevelFileNames == old(sortedLevelFileNames)
      ensures !old(staticListInitialized) ==>
        multiset(sortedLevelFileNames) == multiset(levelAssets) && InLevelOrder(sortedLevelFileNames)
      ensures next.Some? ==>
        (exists i :: 0 <= i < |sortedLevelFileNames| - 1
           && sortedLevelFileNames[i] == currentLevelFileName
           && currentLevelFileName !in sortedLevelFileNames[..i]
           && next.value == sortedLevelFileNames[i + 1])
      ensures next.None? <==>
        |sortedLevelFileNames| == 0 || currentLevelFileName !in sortedLevelFileNames[..|sortedLevelFileNames| - 1]
    {
      EnsureLevelOrderInitialized(levelAssets);
      if |sortedLevelFileNames| == 0 {
        return None;
      }
      var currentIndex := IndexOf(sortedLevelFileNames, currentLevelFileName);
      IndexBeforeLast(sortedLevelFileNames, currentLevelFileName);
      if currentIndex != -1 && currentIndex + 1 < |sortedLevelFileNames| {
        next := Some(sortedLevelFileNames[currentIndex + 1]);
      } else {
        next := None;
      }
    }

    /** The position of the level in play order (its first listing), or -1 when it is not listed. */
    method GetDisplayIndexOfLevel(levelAssets: seq<string>, levelFileName: string) returns (index: int)
      modifies this
      ensures staticListInitialized
      ensures old(staticListInitialized) ==> sortedLevelFileNames == old(sortedLevelFileNames)
      ensures !old(staticListInitialized) ==>
        multiset(sortedLevelFileNames) == multiset(levelAssets) && InLevelOrder(sortedLevelFileNames)
      ensures index == -1 <==> levelFileName !in sortedLevelFileNames
      ensures 0 <= index ==> (index < |sortedLevelFileNames| && sortedLevelFileNames[index] == levelFileName
        && levelFileName !in sortedLevelFileNames[..index])
    {
      EnsureLevelOrderInitialized(levelAssets);
      if |sortedLevelFileNames| == 0 {
        return -1;
      }
      index := IndexOf(sortedLevelFileNames, levelFileName);
    }

    /** Builds the order if needed, then sets up one button per level (see `SetUpButtons`). */
    method PopulateLevels(levelAssets: seq<string>, store: ProgressionStore)
      returns (buttons: seq<LevelButtonSetup>)
      modifies this, store
      ensures staticListInitialized
      ensures old(staticListInitialized) ==> sortedLevelFileNames == old(sortedLevelFileNames)
      ensures !old(staticListInitialized) ==>
        multiset(sortedLevelFileNames) == multiset(levelAssets) && InLevelOrder(sortedLevelFileNames)
      ensures |buttons| == |sortedLevelFileNames|
      ensures forall i :: 0 <= i < |buttons| ==> buttons[i].levelFileNameKey == sortedLevelFileNames[i]
      ensures |buttons| > 0 ==> !buttons[0].isLocked
      ensures forall i :: 0 < i < |buttons| && buttons[i].isLocked ==> store.GetStarRating(sortedLevelFileNames[i - 1]) <= 0
      ensures forall i :: 0 <= i < |buttons| && !buttons[i].isLocked ==> store.IsLevelUnlocked(sortedLevelFileNames[i])
      ensures forall n :: store.IsLevelUnlocked(n) <==> old(store.IsLevelUnlocked(n)) || n in UnlockedNames(sortedLevelFileNames, buttons)
      ensures forall n :: store.GetStarRating(n) == old(store.GetStarRating(n))
    {
      EnsureLevelOrderInitialized(levelAssets);
      if |sortedLevelFileNames| == 0 {
        return [];
      }
      buttons := SetUpButtons(sortedLevelFileNames, store);
      forall n ensures LevelUnlocked(store.prefs, n) == store.IsLevelUnlocked(n)
                   && LevelUnlocked(old(store.prefs), n) == old(store.IsLevelUnlocked(n))
                   && StarRating(store.prefs, n) == store.GetStarRating(n)
                   && StarRating(old(store.prefs), n) == old(store.GetStarRating(n)) {
      }
    }
  }
}
