/**
 * Level progression kept in the player-preferences store: a best star
 * rating per level and an unlock flag per level, both integer entries
 * under prefixed keys.
 */
module Progression {
  import opened Geometry
  import opened Wrappers
  import opened Numerals

  const RatingPrefix: string := "LevelRating_"
  const UnlockedPrefix: string := "LevelUnlocked_"

  function RatingKey(levelName: string): string {
    RatingPrefix + levelName
  }

  function UnlockedKey(levelName: string): string {
    UnlockedPrefix + levelName
  }

  predicate IsRatingKey(k: string) {
    |RatingPrefix| <= |k| && k[..|RatingPrefix|] == RatingPrefix
  }

  /**
   * The two key families never collide, and each key names exactly one
   * level.
   */
  lemma KeysDistinct(a: string, b: string)
    ensures IsRatingKey(RatingKey(a)) && !IsRatingKey(UnlockedKey(b))
    ensures RatingKey(a) != UnlockedKey(b)
    ensures RatingKey(a) == RatingKey(b) <==> a == b
    ensures UnlockedKey(a) == UnlockedKey(b) <==> a == b
  {
    assert RatingKey(a)[5] == RatingPrefix[5] == 'R';
    assert UnlockedKey(b)[5] == UnlockedPrefix[5] == 'U';
    assert RatingKey(a)[..|RatingPrefix|] == RatingPrefix;
    if RatingKey(a) == RatingKey(b) {
      assert a == RatingKey(a)[|RatingPrefix|..] && b == RatingKey(b)[|RatingPrefix|..];
    }
    if UnlockedKey(a) == UnlockedKey(b) {
      assert a == UnlockedKey(a)[|UnlockedPrefix|..] && b == UnlockedKey(b)[|UnlockedPrefix|..];
    }
  }

  /** C#'s `s.EndsWith(suffix)`, compared character by character. */
  predicate EndsWith(s: string, suffix: string) {
    |suffix| <= |s| && s[|s| - |suffix|..] == suffix
  }

  /** C#'s `s.Split(sep)`: the pieces between separators, empty pieces kept. */
  function Split(s: string, sep: char): (parts: seq<string>)
    ensures |parts| >= 1
    ensures forall i :: 0 <= i < |parts| ==> sep !in parts[i]
  {
    if s == [] then [""]
    else
      var rest := Split(s[1..], sep);
      if s[0] == sep then [""] + rest else [[s[0]] + rest[0]] + rest[1..]
  }

  /** The pieces joined back with the separator. */
  function Join(parts: seq<string>, sep: char): string
    requires |parts| >= 1
  {
    if |parts| == 1 then parts[0] else parts[0] + [sep] + Join(parts[1..], sep)
  }

  /** Splitting and joining back gives the original text. */
  lemma {:induction false} JoinSplit(s: string, sep: char)
    ensures Join(Split(s, sep), sep) == s
  {
    if s != [] {
      var rest := Split(s[1..], sep);
      JoinSplit(s[1..], sep);
      if s[0] != sep {
        var parts := Split(s, sep);
        if |rest| > 1 {
          assert parts[1..] == rest[1..];
        }
      }
    }
  }

  /** Text with no separator is a single piece. */
  lemma {:induction false} SplitNone(s: string, sep: char)
    requires sep !in s
    ensures Split(s, sep) == [s]
  {
    if s != [] {
      SplitNone(s[1..], sep);
      assert [s[0]] + s[1..] == s;
    }
  }

  /** Two separator-free pieces around one separator split back into those two pieces. */
  lemma {:induction false} SplitTwo(p: string, q: string, sep: char)
    requires sep !in p && sep !in q
    ensures Split(p + [sep] + q, sep) == [p, q]
  {
    var s := p + [sep] + q;
    if p == [] {
      assert s[1..] == q;
      SplitNone(q, sep);
    } else {
      assert s[1..] == p[1..] + [sep] + q;
      SplitTwo(p[1..], q, sep);
      assert [s[0]] + p[1..] == p;
    }
  }

  /**
   * The level `UnlockNextLevel` unlocks: a name of the form
   * `<prefix>_<number>` names `<prefix>_<number + 1>`, the number written
   * with at least two digits and wrapping as a 32-bit `int`; any other
   * name names none.
   */
  function NextLevelName(currentLevelName: string): (next: Option<string>)
    ensures next.Some? ==> (|Split(currentLevelName, '_')| == 2
      && NextOf(currentLevelName, next.value, Split(currentLevelName, '_')[0], Split(currentLevelName, '_')[1]))
  {
    var parts := Split(currentLevelName, '_');
    if |parts| == 2 then
      match TryParseInt(parts[1])
      case Some(currentLevelNum) =>
        var name := parts[0] + "_" + FormatD2(Wrap32(currentLevelNum + 1));
        NextOfSplit(currentLevelName, currentLevelNum);
        Some(name)
      case None => None
    else None
  }

  /**
   * `name` is `p_t` with separator-free pieces and `t` a valid `int`, and
   * `next` is `p_` followed by that number plus one in "D2" form.
   */
  predicate NextOf(name: string, next: string, p: string, t: string) {
    && name == p + "_" + t && '_' !in p && '_' !in t && TryParseInt(t).Some?
    && next == p + "_" + FormatD2(Wrap32(TryParseInt(t).value + 1))
  }

  /** A name that splits into two pieces is those pieces around the separator. */
  lemma SplitPair(s: string)
    requires |Split(s, '_')| == 2
    ensures s == Split(s, '_')[0] + "_" + Split(s, '_')[1]
  {
    var parts := Split(s, '_');
    JoinSplit(s, '_');
    assert Join(parts[1..], '_') == parts[1];
  }

  /** A two-piece name whose second piece parses is `NextOf` its successor name. */
  lemma NextOfSplit(s: string, v: int)
    requires |Split(s, '_')| == 2 && TryParseInt(Split(s, '_')[1]) == Some(v)
    ensures NextOf(s, Split(s, '_')[0] + "_" + FormatD2(Wrap32(v + 1)), Split(s, '_')[0], Split(s, '_')[1])
  {
    SplitPair(s);
  }

  /**
   * Every name made of two separator-free pieces around one '_', the
   * second a valid `int`, has a next level: the same prefix with the
   * number plus one in "D2" form.
   */
  lemma NextLevelNameOf(prefix: string, t: string)
    requires '_' !in prefix && '_' !in t && TryParseInt(t).Some?
    ensures NextLevelName(prefix + "_" + t) == Some(prefix + "_" + FormatD2(Wrap32(TryParseInt(t).value + 1)))
  {
    var name := prefix + "_" + t;
    SplitTwo(prefix, t, '_');
    assert Split(name, '_') == [prefix, t];
  }

  /** "World_07" names "World_08", "Level_99" names "Level_100", and so on for every 32-bit level number. */
  lemma NextLevelNameOfD2(prefix: string, n: int)
    requires '_' !in prefix && IsInt32(n)
    ensures NextLevelName(prefix + "_" + FormatD2(n)) == Some(prefix + "_" + FormatD2(Wrap32(n + 1)))
  {
    ParseFormatD2(n);
    assert '_' !in FormatD2(n) by {
      forall i | 0 <= i < |FormatD2(n)| ensures FormatD2(n)[i] != '_' {
      }
    }
    NextLevelNameOf(prefix, FormatD2(n));
  }

  /** `PlayerPrefs.GetInt(key, defaultValue)` on the store's integer entries `prefs`. */
  function GetInt(prefs: map<string, int>, key: string, defaultValue: int): int {
    if key in prefs then prefs[key] else defaultValue
  }

  /** The rating `prefs` records for the level, 0 when it records none. */
  function StarRating(prefs: map<string, int>, levelName: string): int {
    GetInt(prefs, RatingKey(levelName), 0)
  }

  /** A level whose name ends in "01" is always open; any other needs its flag set to 1 in `prefs`. */
  predicate LevelUnlocked(prefs: map<string, int>, levelName: string) {
    EndsWith(levelName, "01") || GetInt(prefs, UnlockedKey(levelName), 0) == 1
  }

  /** The player-preferences store, restricted to its integer entries. */
  class ProgressionStore {
    var prefs: map<string, int>

    /** Every stored rating is a star count 0 to 3. */
    ghost predicate Valid()
      reads this
    {
      forall k :: k in prefs && IsRatingKey(k) ==> 0 <= prefs[k] <= 3
    }

    /** An empty store. */
    constructor()
      ensures prefs == map[] && Valid()
    {
      prefs := map[];
    }

    /** The best rating recorded for the level: 0 when none is, at most 3 in a valid store. */
    function GetStarRating(levelName: string): (stars: int)
      reads this
      ensures RatingKey(levelName) !in prefs ==> stars == 0
      ensures Valid() ==> 0 <= stars <= 3
    {
      KeysDistinct(levelName, levelName);
      StarRating(prefs, levelName)
    }

    /**
     * Whether the level is open in the current store: a name ending in "01"
     * always is, any other exactly when its unlock entry is 1.
     */
    predicate IsLevelUnlocked(levelName: string): (unlocked: bool)
      reads this
      ensures EndsWith(levelName, "01") ==> unlocked
      ensures !EndsWith(levelName, "01") ==>
        (unlocked <==> UnlockedKey(levelName) in prefs && prefs[UnlockedKey(levelName)] == 1)
    {
      LevelUnlocked(prefs, levelName)
    }

    /**
     * Records a rating: out-of-range values are ignored, and a stored
     * rating only ever increases. Nothing else changes.
     */
    method SetStarRating(levelName: string, stars: int)
      modifies this
      ensures prefs ==
        if 0 <= stars <= 3 && stars > old(GetStarRating(levelName)) then old(prefs)[RatingKey(levelName) := stars]
        else old(prefs)
      ensures GetStarRating(levelName) ==
        if 0 <= stars <= 3 && stars > old(GetStarRating(levelName)) then stars else old(GetStarRating(levelName))
      ensures forall n :: IsLevelUnlocked(n) == old(IsLevelUnlocked(n))
      ensures forall n :: GetStarRating(n) >= old(GetStarRating(n))
      ensures old(Valid()) ==> Valid()
    {
      if stars < 0 || stars > 3 {
        return;
      }
      if stars > GetStarRating(levelName) {
        prefs := prefs[RatingKey(levelName) := stars];
        forall n ensures UnlockedKey(n) != RatingKey(levelName) {
          KeysDistinct(levelName, n);
        }
        forall n | n != levelName ensures RatingKey(n) != RatingKey(levelName) {
          KeysDistinct(levelName, n);
        }
      }
    }

    /** Sets the level's unlock flag; nothing else changes. */
    method UnlockLevel(levelName: string)
      modifies this
      ensures prefs == old(prefs)[UnlockedKey(levelName) := 1]
      ensures forall n :: IsLevelUnlocked(n) <==> old(IsLevelUnlocked(n)) || n == levelName
      ensures forall n :: GetStarRating(n) == old(GetStarRating(n))
      ensures old(Valid()) ==> Valid()
    {
      prefs := prefs[UnlockedKey(levelName) := 1];
      forall n ensures RatingKey(n) != UnlockedKey(levelName) && (UnlockedKey(n) == UnlockedKey(levelName) <==> n == levelName) {
        KeysDistinct(n, levelName);
      }
      KeysDistinct(levelName, levelName);
    }

    /** Unlocks the level after `currentLevelName` when the name has that form (see `NextLevelName`). */
    method UnlockNextLevel(currentLevelName: string)
      modifies this
      ensures NextLevelName(currentLevelName).None? ==> prefs == old(prefs)
      ensures NextLevelName(currentLevelName).Some? ==>
        prefs == old(prefs)[UnlockedKey(NextLevelName(currentLevelName).value) := 1]
      ensures old(Valid()) ==> Valid()
    {
      var parts := Split(currentLevelName, '_');
      if |parts| == 2 {
        var parsed := TryParseInt(parts[1]);
        if parsed.Some? {
          var nextLevelNum := Wrap32(parsed.value + 1);
          var nextLevelName := parts[0] + "_" + FormatD2(nextLevelNum);
          assert NextLevelName(currentLevelName) == Some(nextLevelName);
          UnlockLevel(nextLevelName);
        } else {
          assert NextLevelName(currentLevelName) == None;
        }
      } else {
        assert NextLevelName(currentLevelName) == None;
      }
    }

    /** Forgets every rating and flag: only the "01" levels stay open. */
    method ResetAllProgression()
      modifies this
      ensures prefs == map[] && Valid()
      ensures forall n :: GetStarRating(n) == 0
      ensures forall n :: IsLevelUnlocked(n) <==> EndsWith(n, "01")
    {
      prefs := map[];
    }
  }
}
