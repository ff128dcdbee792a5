/**
 * Log level to ntfy priority: the built-in table, the floor-to-ten rounding
 * of a level, the lookup with its default, and the normalisation of a
 * caller-supplied map whose keys may arrive as strings.
 */
module Priority {
  import opened Wrappers
  import Decimal

  /** The standard levels of Python's `logging` (FATAL is an alias of CRITICAL). */
  const DEBUG: int := 10
  const INFO: int := 20
  const WARNING: int := 30
  const ERROR: int := 40
  const FATAL: int := 50

  /** The priority used for a rounded level the map does not mention. */
  const DefaultPriority: int := 3

  /** The built-in map of rounded log level to ntfy priority. */
  const DefaultPriorityMap: map<int, int> := map[DEBUG := 1, INFO := 2, WARNING := 3, ERROR := 4, FATAL := 5]

  /** `levelno // 10 * 10`: the multiple of ten at or below the level (floor, also for negative levels). */
  function Rounded(levelno: int): (r: int)
    ensures r % 10 == 0
    ensures r <= levelno < r + 10
  {
    levelno / 10 * 10
  }

  /**
   * `map.get(Rounded(levelno), DefaultPriority)`: total, always a priority
   * the map holds or the default, and the default for an unmapped level.
   */
  function PriorityFor(m: map<int, int>, levelno: int): (p: int)
    ensures p in m.Values || p == DefaultPriority
    ensures Rounded(levelno) !in m ==> p == DefaultPriority
    ensures forall k :: k in m && k <= levelno < k + 10 && k % 10 == 0 ==> p == m[k]
  {
    var rounded := Rounded(levelno);
    if rounded in m then m[rounded] else DefaultPriority
  }

  /** The rounded level is the one multiple of ten in `(levelno - 10, levelno]`. */
  lemma RoundedIsUnique(levelno: int, k: int)
    requires k % 10 == 0 && k <= levelno < k + 10
    ensures Rounded(levelno) == k
  {
  }

  /** Every level of one decade gets the priority of the decade's multiple of ten. */
  lemma DecadeSharesPriority(m: map<int, int>, levelno: int, k: int)
    requires k % 10 == 0 && k <= levelno < k + 10
    ensures PriorityFor(m, levelno) == PriorityFor(m, k)
    ensures PriorityFor(m, levelno) == (if k in m then m[k] else DefaultPriority)
  {
  }

  /**
   * A level whose rounded level the map does not hold gets the default
   * priority, whatever else the map holds, so every level of that decade does.
   */
  lemma AbsentDecadeDefaults(m: map<int, int>, levelno: int)
    requires Rounded(levelno) !in m
    ensures PriorityFor(m, levelno) == DefaultPriority
    ensures forall other :: Rounded(other) == Rounded(levelno) ==> PriorityFor(m, other) == DefaultPriority
  {
  }

  /** With the built-in map, levels 10 to 59 get priorities 1 to 5 and every other level gets 3. */
  lemma DefaultMapPriorities(levelno: int)
    ensures PriorityFor(DefaultPriorityMap, levelno) == if 10 <= levelno < 60 then levelno / 10 else DefaultPriority
  {
  }

  /** A key of a caller-supplied priority map: JSON-loaded configuration gives strings. */
  datatype Key = IntKey(i: int) | StrKey(s: string)

  /** `int(key)`; `None` is the `ValueError` raised for a non-numeric string. */
  function KeyLevel(key: Key): (r: Option<int>)
    ensures r.None? ==> key.StrKey? && !Decimal.IsDecimalLiteral(key.s)
    ensures key.StrKey? && Decimal.IsDecimalLiteral(key.s) ==> r.Some?
  {
    match key
    case IntKey(i) => Some(i)
    case StrKey(s) => Decimal.ParseInt(s)
  }

  /**
   * The map the normalisation loop builds from the items of the caller's map,
   * in iteration order, so a later item wins when two keys parse to the same
   * level; `None` when some key is not numeric.
   */
  function Normalised(items: seq<(Key, int)>): (r: Option<map<int, int>>)
    ensures r.Some? ==> forall i :: 0 <= i < |items| ==>
      KeyLevel(items[i].0).Some? && KeyLevel(items[i].0).value in r.value
    decreases |items|
  {
    if |items| == 0 then Some(map[])
    else
      var (key, priority) := items[|items| - 1];
      match Normalised(items[..|items| - 1])
      case None => None
      case Some(m) =>
        match KeyLevel(key)
        case None => None
        case Some(level) => Some(m[level := priority])
  }

  /** Normalisation fails exactly when some key is not numeric. */
  lemma {:induction false} NormalisedFails(items: seq<(Key, int)>)
    ensures Normalised(items).None? <==> exists i :: 0 <= i < |items| && KeyLevel(items[i].0).None?
    decreases |items|
  {
    if |items| > 0 {
      var init := items[..|items| - 1];
      NormalisedFails(init);
      assert forall i :: 0 <= i < |init| ==> init[i] == items[i];
    }
  }

  /** No item after item `i` has a key that parses to the same level. */
  ghost predicate IsLastFor(items: seq<(Key, int)>, i: nat)
    requires i < |items|
  {
    forall j :: i < j < |items| ==> KeyLevel(items[j].0) != KeyLevel(items[i].0)
  }

  /** One step of the normalisation: the map of all but the last item, updated with the last one. */
  lemma NormalisedStep(items: seq<(Key, int)>)
    requires |items| > 0 && Normalised(items).Some?
    ensures Normalised(items[..|items| - 1]).Some? && KeyLevel(items[|items| - 1].0).Some?
    ensures Normalised(items).value ==
      Normalised(items[..|items| - 1]).value[KeyLevel(items[|items| - 1].0).value := items[|items| - 1].1]
  {
  }

  /** A successful normalisation holds exactly the parsed keys. */
  lemma {:induction false} NormalisedKeys(items: seq<(Key, int)>)
    requires Normalised(items).Some?
    ensures forall level :: level in Normalised(items).value <==>
      exists i :: 0 <= i < |items| && KeyLevel(items[i].0) == Some(level)
    decreases |items|
  {
    if |items| > 0 {
      var init := items[..|items| - 1];
      NormalisedStep(items);
      NormalisedKeys(init);
      assert forall i :: 0 <= i < |init| ==> init[i] == items[i];
    }
  }

  /** Each parsed level holds the priority of the last item whose key parses to it. */
  lemma {:induction false} NormalisedLastWins(items: seq<(Key, int)>, i: nat)
    requires Normalised(items).Some? && i < |items| && IsLastFor(items, i)
    ensures KeyLevel(items[i].0).Some?
    ensures KeyLevel(items[i].0).value in Normalised(items).value
    ensures Normalised(items).value[KeyLevel(items[i].0).value] == items[i].1
    decreases |items|
  {
    var init := items[..|items| - 1];
    NormalisedStep(items);
    if i < |items| - 1 {
      assert init[i] == items[i];
      assert IsLastFor(init, i) by {
        forall j | i < j < |init| ensures KeyLevel(init[j].0) != KeyLevel(init[i].0) {
          assert init[j] == items[j];
        }
      }
      NormalisedLastWins(init, i);
    }
  }

  /**
   * The `log_level_priority_map` step of construction: a non-empty map is
   * normalised key by key; an absent or empty one selects the built-in map.
   */
  method NormalisePriorityMap(given: Option<seq<(Key, int)>>) returns (r: Option<map<int, int>>)
    ensures (given.None? || given.value == []) ==> r == Some(DefaultPriorityMap)
    ensures given.Some? && given.value != [] ==> r == Normalised(given.value)
  {
    if given.Some? && |given.value| > 0 {
      var items := given.value;
      var m: map<int, int> := map[];
      for i := 0 to |items|
        invariant Normalised(items[..i]) == Some(m)
      {
        var (key, priority) := items[i];
        assert items[..i + 1][..i] == items[..i];
        match KeyLevel(key)
        case None =>
          PrefixFailurePersists(items, i + 1);
          return None;
        case Some(level) =>
          m := m[level := priority];
      }
      assert items[..|items|] == items;
      r := Some(m);
    } else {
      r := Some(DefaultPriorityMap);
    }
  }

  /** Once a prefix of the items fails, the whole normalisation fails. */
  lemma PrefixFailurePersists(items: seq<(Key, int)>, n: nat)
    requires n <= |items| && Normalised(items[..n]).None?
    ensures Normalised(items).None?
  {
    var prefix := items[..n];
    NormalisedFails(prefix);
    var i :| 0 <= i < |prefix| && KeyLevel(prefix[i].0).None?;
    assert items[i] == prefix[i];
    NormalisedFails(items);
  }
}
