/**
 * What the two catalogue pages share: the seven filter fields and the test
 * each one applies to a room, the sort options with their keys, the sort
 * dropdown's choice rule and the sort of a copy of the list.
 *
 * Filter fields hold the strings of their select inputs; an empty field
 * imposes nothing. Numeric fields go through Js.ParseInt, so a field that
 * does not read as a number compares false as NaN does.
 */
module RoomCatalog {
  import opened Wrappers
  import opened Js
  import opened BookingModel
  import opened Sequences

  /** The filter fields of a catalogue page. */
  datatype Filters = Filters(
    genre: string, difficulty: string, ageGroup: string, players: string,
    minPrice: string, maxPrice: string, duration: string)

  const EmptyFilters: Filters := Filters("", "", "", "", "", "", "")

  // ---------------------------------------------------------------------
  // The tests of the filter steps

  predicate GenreMatches(room: EscapeRoom, genre: string) { room.genre == genre }

  predicate DifficultyMatches(room: EscapeRoom, difficulty: string) { room.difficulty == difficulty }

  /** The room's age group reads as a number no greater than the selected one. */
  predicate AgeMatches(room: EscapeRoom, selected: Number)
  {
    ParseInt(room.ageGroup).Num? && Le(ParseInt(room.ageGroup), selected)
  }

  /** The selected number of players lies within the room's bounds. */
  predicate PlayersMatch(room: EscapeRoom, players: Number)
  {
    Le(Num(room.playersMin), players) && Le(players, Num(room.playersMax))
  }

  predicate MinPriceMatches(room: EscapeRoom, minPrice: Number) { Le(minPrice, Num(room.price)) }

  predicate MaxPriceMatches(room: EscapeRoom, maxPrice: Number) { Le(Num(room.price), maxPrice) }

  predicate DurationMatches(room: EscapeRoom, duration: Number) { NumEq(Num(room.duration), duration) }

  /** A room passes the seven filter fields; an empty field passes every room. */
  predicate FiltersMatch(f: Filters, room: EscapeRoom)
  {
    (f.genre != "" ==> GenreMatches(room, f.genre)) &&
    (f.difficulty != "" ==> DifficultyMatches(room, f.difficulty)) &&
    (f.ageGroup != "" ==> AgeMatches(room, ParseInt(f.ageGroup))) &&
    (f.players != "" ==> PlayersMatch(room, ParseInt(f.players))) &&
    (f.minPrice != "" ==> MinPriceMatches(room, ParseInt(f.minPrice))) &&
    (f.maxPrice != "" ==> MaxPriceMatches(room, ParseInt(f.maxPrice))) &&
    (f.duration != "" ==> DurationMatches(room, ParseInt(f.duration)))
  }

  /** With every field empty, every room passes. */
  lemma EmptyFiltersMatch(room: EscapeRoom)
    ensures FiltersMatch(EmptyFilters, room)
  {
  }

  // ---------------------------------------------------------------------
  // A chain of filter steps

  /** The test of step `k` (1 to 7) of the chain; a step whose field is empty passes every room. */
  predicate FieldTest(f: Filters, k: nat, room: EscapeRoom)
  {
    if k == 1 then f.genre != "" ==> GenreMatches(room, f.genre)
    else if k == 2 then f.difficulty != "" ==> DifficultyMatches(room, f.difficulty)
    else if k == 3 then f.ageGroup != "" ==> AgeMatches(room, ParseInt(f.ageGroup))
    else if k == 4 then f.players != "" ==> PlayersMatch(room, ParseInt(f.players))
    else if k == 5 then f.minPrice != "" ==> MinPriceMatches(room, ParseInt(f.minPrice))
    else if k == 6 then f.maxPrice != "" ==> MaxPriceMatches(room, ParseInt(f.maxPrice))
    else if k == 7 then f.duration != "" ==> DurationMatches(room, ParseInt(f.duration))
    else true
  }

  /** The first `k` steps of the chain. */
  predicate FieldsPass(f: Filters, room: EscapeRoom, k: nat)
  {
    k == 0 || (FieldsPass(f, room, k - 1) && FieldTest(f, k, room))
  }

  /** All seven steps together are FiltersMatch. */
  lemma FieldsPassAll(f: Filters, room: EscapeRoom)
    ensures FieldsPass(f, room, 7) == FiltersMatch(f, room)
  {
    assert FieldsPass(f, room, 1) == FieldTest(f, 1, room);
    assert FieldsPass(f, room, 3) == (FieldsPass(f, room, 1) && FieldTest(f, 2, room) && FieldTest(f, 3, room));
    assert FieldsPass(f, room, 5) == (FieldsPass(f, room, 3) && FieldTest(f, 4, room) && FieldTest(f, 5, room));
    assert FieldsPass(f, room, 7) == (FieldsPass(f, room, 5) && FieldTest(f, 6, room) && FieldTest(f, 7, room));
  }

  /**
   * Step `k` of the chain: filtering what passed the first `k - 1` steps by
   * a test that agrees with step `k` leaves what passes the first `k`; a
   * step that passes everything can be skipped.
   */
  lemma Advance(rooms: seq<EscapeRoom>, f: Filters, k: nat, prev: seq<EscapeRoom>, test: EscapeRoom -> bool)
    requires 1 <= k <= 7
    requires prev == Filter(rooms, room => FieldsPass(f, room, k - 1))
    requires forall room :: test(room) == FieldTest(f, k, room)
    ensures Filter(prev, test) == Filter(rooms, room => FieldsPass(f, room, k))
    ensures (forall room :: test(room)) ==> prev == Filter(rooms, room => FieldsPass(f, room, k))
  {
    FilterThen(rooms, room => FieldsPass(f, room, k - 1), test, room => FieldsPass(f, room, k));
    if forall room :: test(room) {
      FilterAll(prev, test);
    }
  }

  /** Whether the field of step `k` is set. */
  predicate FieldSet(f: Filters, k: nat)
  {
    if k == 1 then f.genre != "" else if k == 2 then f.difficulty != "" else if k == 3 then f.ageGroup != ""
    else if k == 4 then f.players != "" else if k == 5 then f.minPrice != "" else if k == 6 then f.maxPrice != ""
    else k == 7 && f.duration != ""
  }

  /**
   * Step `k` of the chain, `if (field) result = result.filter(test)`: what
   * passed the first `k - 1` steps becomes what passes the first `k`.
   */
  method ApplyStep(rooms: seq<EscapeRoom>, f: Filters, k: nat, result: seq<EscapeRoom>)
    returns (next: seq<EscapeRoom>)
    requires 1 <= k <= 7
    requires result == Filter(rooms, room => FieldsPass(f, room, k - 1))
    ensures next == Filter(rooms, room => FieldsPass(f, room, k))
  {
    if FieldSet(f, k) {
      Advance(rooms, f, k, result, room => FieldTest(f, k, room));
      next := Filter(result, room => FieldTest(f, k, room));
    } else {
      Advance(rooms, f, k, result, room => true);
      next := result;
    }
  }

  /**
   * The seven filter steps of `applyFilters`, each applied only when its
   * field is set: together they keep, in order, exactly the rooms that pass
   * FiltersMatch.
   */
  method ApplyFieldFilters(rooms: seq<EscapeRoom>, f: Filters) returns (result: seq<EscapeRoom>)
    ensures result == Filter(rooms, room => FiltersMatch(f, room))
  {
    FilterAll(rooms, room => FieldsPass(f, room, 0));
    result := ApplyStep(rooms, f, 1, rooms);
    result := ApplyStep(rooms, f, 2, result);
    result := ApplyStep(rooms, f, 3, result);
    result := ApplyStep(rooms, f, 4, result);
    result := ApplyStep(rooms, f, 5, result);
    result := ApplyStep(rooms, f, 6, result);
    result := ApplyStep(rooms, f, 7, result);
    AllSteps(rooms, f);
  }

  lemma AllSteps(rooms: seq<EscapeRoom>, f: Filters)
    ensures Filter(rooms, room => FieldsPass(f, room, 7)) == Filter(rooms, room => FiltersMatch(f, room))
  {
    forall room | true
      ensures FieldsPass(f, room, 7) == FiltersMatch(f, room)
    {
      FieldsPassAll(f, room);
    }
    FilterExt(rooms, room => FieldsPass(f, room, 7), room => FiltersMatch(f, room));
  }

  // ---------------------------------------------------------------------
  // Sorting

  datatype SortOption = Rating | Difficulty | Age | Players | Duration | Price

  datatype Direction = Asc | Desc

  /** The order the difficulty comparator looks difficulties up in. */
  const DifficultiesOrder: seq<string> := ["Expert", "Advanced", "Intermediate", "Beginner"]

  /** `Array.prototype.indexOf`: the first position of `x`, or -1. */
  function IndexOf(s: seq<string>, x: string): (r: int)
    ensures -1 <= r < |s|
    ensures r == -1 <==> x !in s
    ensures r >= 0 ==> s[r] == x && forall k :: 0 <= k < r ==> s[k] != x
  {
    if s == [] then -1
    else if s[0] == x then 0
    else
      var k := IndexOf(s[1..], x);
      if k == -1 then -1 else k + 1
  }

  /**
   * The key an ascending comparator `key(a) - key(b)` sorts by. A rating
   * missing or 0 counts as 0; for the age, the parsed age group (a group that
   * does not read as a number counts as 0). The difficulty key is the
   * position in DifficultiesOrder, negated when the easiest comes first.
   */
  function AscendingKey(option: SortOption, easiestFirst: bool, room: EscapeRoom): int
  {
    match option
    case Rating => room.averageRating.GetOr(0)
    case Difficulty =>
      var index := IndexOf(DifficultiesOrder, room.difficulty);
      if easiestFirst then -index else index
    case Age => var age := ParseInt(room.ageGroup); if age.Num? then age.n else 0
    case Players => room.playersMax
    case Duration => room.duration
    case Price => room.price
  }

  /** A descending comparator `key(b) - key(a)` sorts ascending by the negated key. */
  function SortKey(option: SortOption, direction: Direction, easiestFirst: bool): EscapeRoom -> int
  {
    room => if direction == Asc then AscendingKey(option, easiestFirst, room) else -AscendingKey(option, easiestFirst, room)
  }

  /**
   * `sortRooms`: the rooms copied into a fresh array and sorted there
   * (a stable sort, as `Array.prototype.sort` is), the input left alone.
   */
  method SortRooms(rooms: seq<EscapeRoom>, option: SortOption, direction: Direction, easiestFirst: bool)
    returns (sorted: seq<EscapeRoom>)
    ensures sorted == SortBy(rooms, SortKey(option, direction, easiestFirst))
  {
    var copy := new EscapeRoom[|rooms|](i requires 0 <= i < |rooms| => rooms[i]);
    assert copy[..] == rooms;
    SortInPlace(copy, SortKey(option, direction, easiestFirst));
    sorted := copy[..];
  }

  /**
   * The sorted list holds the same rooms, ordered by the key: ascending
   * puts a smaller key first, descending a larger one.
   */
  lemma SortRoomsSorted(rooms: seq<EscapeRoom>, option: SortOption, direction: Direction, easiestFirst: bool)
    ensures var s := SortBy(rooms, SortKey(option, direction, easiestFirst));
      multiset(s) == multiset(rooms) &&
      forall i, j :: 0 <= i < j < |s| ==>
        if direction == Asc then AscendingKey(option, easiestFirst, s[i]) <= AscendingKey(option, easiestFirst, s[j])
        else AscendingKey(option, easiestFirst, s[i]) >= AscendingKey(option, easiestFirst, s[j])
  {
    var key := SortKey(option, direction, easiestFirst);
    SortBySorted(rooms, key);
    var s := SortBy(rooms, key);
    forall i, j | 0 <= i < j < |s|
      ensures if direction == Asc then AscendingKey(option, easiestFirst, s[i]) <= AscendingKey(option, easiestFirst, s[j])
        else AscendingKey(option, easiestFirst, s[i]) >= AscendingKey(option, easiestFirst, s[j])
    {
      assert key(s[i]) <= key(s[j]);
    }
  }

  /** The four difficulties are ranked Expert, Advanced, Intermediate, Beginner; any other comes before them. */
  lemma DifficultyIndices()
    ensures IndexOf(DifficultiesOrder, "Expert") == 0 && IndexOf(DifficultiesOrder, "Advanced") == 1
    ensures IndexOf(DifficultiesOrder, "Intermediate") == 2 && IndexOf(DifficultiesOrder, "Beginner") == 3
    ensures forall d :: d !in DifficultiesOrder ==> IndexOf(DifficultiesOrder, d) == -1
  {
    assert DifficultiesOrder[0] == "Expert" && DifficultiesOrder[1] == "Advanced";
    assert DifficultiesOrder[2] == "Intermediate" && DifficultiesOrder[3] == "Beginner";
  }

  /** The list `applyFilters` shows: the filtered rooms, sorted when an option is selected. */
  function Arranged(filtered: seq<EscapeRoom>, option: Option<SortOption>, direction: Direction, easiestFirst: bool): seq<EscapeRoom>
  {
    if option.None? then filtered else SortBy(filtered, SortKey(option.value, direction, easiestFirst))
  }

  /** Sorting rearranges: the shown list holds exactly the filtered rooms, as a multiset. */
  lemma ArrangedPermutes(filtered: seq<EscapeRoom>, option: Option<SortOption>, direction: Direction, easiestFirst: bool)
    ensures multiset(Arranged(filtered, option, direction, easiestFirst)) == multiset(filtered)
    ensures option.None? ==> Arranged(filtered, option, direction, easiestFirst) == filtered
  {
    if option.Some? {
      SortRoomsSorted(filtered, option.value, direction, easiestFirst);
    }
  }

  // ---------------------------------------------------------------------
  // The sort dropdown

  /**
   * `handleSortOptionClick`: "none" (None here) clears the option and sorts
   * ascending; the current option again flips the direction; another option
   * is selected ascending.
   */
  function NextSort(current: Option<SortOption>, direction: Direction, clicked: Option<SortOption>): (r: (Option<SortOption>, Direction))
    ensures r.0 == clicked
    ensures r.1 == Desc <==> clicked.Some? && clicked == current && direction == Asc
  {
    if clicked.None? then (None, Asc)
    else if current == clicked then (current, if direction == Asc then Desc else Asc)
    else (clicked, Asc)
  }

  /** Clicking the selected option twice restores the direction; a new option starts ascending. */
  lemma NextSortTwice(current: Option<SortOption>, direction: Direction, clicked: Option<SortOption>)
    ensures clicked.Some? && clicked == current ==>
      NextSort(NextSort(current, direction, clicked).0, NextSort(current, direction, clicked).1, clicked) == (current, direction)
    ensures clicked != current ==> NextSort(current, direction, clicked) == (clicked, Asc)
  {
  }
}
