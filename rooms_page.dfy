/**
 * The catalogue page: a text search over theme, description and genre, the
 * seven filter fields and the sort dropdown. Difficulty sorted ascending
 * puts Beginner first.
 */
module RoomsPage {
  import opened Wrappers
  import opened Js
  import opened BookingModel
  import opened Sequences
  import opened RoomCatalog

  /** The search step: the lower-cased query occurs in the lower-cased theme, description or genre. */
  predicate SearchMatches(room: EscapeRoom, query: string)
  {
    var q := ToLower(query);
    Includes(ToLower(room.theme), q) || Includes(ToLower(room.description), q) || Includes(ToLower(room.genre), q)
  }

  /** A room the page shows: it passes the search, when there is a query, and the filter fields. */
  predicate RoomMatches(query: string, f: Filters, room: EscapeRoom)
  {
    (query != "" ==> SearchMatches(room, query)) && FiltersMatch(f, room)
  }

  /** The search ignores case: a query and its lower-case form find the same rooms. */
  lemma SearchIgnoresCase(room: EscapeRoom, query: string)
    ensures SearchMatches(room, ToLower(query)) == SearchMatches(room, query)
  {
    ToLowerIdempotent(query);
  }

  /** A room is found by its own theme, description or genre. */
  lemma SearchFindsOwnFields(room: EscapeRoom)
    ensures SearchMatches(room, room.theme)
    ensures SearchMatches(room, room.description)
    ensures SearchMatches(room, room.genre)
  {
    var t, d, g := ToLower(room.theme), ToLower(room.description), ToLower(room.genre);
    assert t[0..|t|] == t && d[0..|d|] == d && g[0..|g|] == g;
  }

  /** The list the page shows for a catalogue, a query, the filter fields and the sort. */
  function Shown(rooms: seq<EscapeRoom>, query: string, f: Filters, option: Option<SortOption>, direction: Direction): (r: seq<EscapeRoom>)
    ensures option.None? ==> r == Filter(rooms, room => RoomMatches(query, f, room))
    ensures |r| <= |rooms|
  {
    ArrangedPermutes(Filter(rooms, room => RoomMatches(query, f, room)), option, direction, true);
    Arranged(Filter(rooms, room => RoomMatches(query, f, room)), option, direction, true)
  }

  /**
   * `applyFilters`: the search step, the seven filter steps, then the sort
   * when an option is selected.
   */
  method ApplyFilters(rooms: seq<EscapeRoom>, query: string, f: Filters, option: Option<SortOption>, direction: Direction)
    returns (result: seq<EscapeRoom>)
    ensures result == Shown(rooms, query, f, option, direction)
  {
    result := rooms;
    if query != "" {
      result := Filter(result, room => SearchMatches(room, query));
      FilterThen(rooms, room => SearchMatches(room, query), room => FiltersMatch(f, room), room => RoomMatches(query, f, room));
    } else {
      FilterExt(rooms, room => FiltersMatch(f, room), room => RoomMatches(query, f, room));
    }
    result := ApplyFieldFilters(result, f);
    if option.Some? {
      result := SortRooms(result, option.value, direction, true);
    }
  }

  /**
   * The page shows exactly the rooms that match, each as often as in the
   * catalogue; unsorted, in the catalogue's order.
   */
  lemma ShownRooms(rooms: seq<EscapeRoom>, query: string, f: Filters, option: Option<SortOption>, direction: Direction)
    ensures var shown := Shown(rooms, query, f, option, direction);
      (forall room :: room in shown <==> room in rooms && RoomMatches(query, f, room)) &&
      multiset(shown) == multiset(Filter(rooms, room => RoomMatches(query, f, room))) &&
      (option.None? ==> Subsequence(shown, rooms))
  {
    var filtered := Filter(rooms, room => RoomMatches(query, f, room));
    ArrangedPermutes(filtered, option, direction, true);
    var shown := Arranged(filtered, option, direction, true);
    forall room
      ensures room in shown <==> room in filtered
    {
      assert room in shown <==> room in multiset(shown);
      assert room in filtered <==> room in multiset(filtered);
    }
  }

  /** With no query and no filter set, every room is shown. */
  lemma NothingSetShowsAll(rooms: seq<EscapeRoom>)
    ensures Filter(rooms, room => RoomMatches("", EmptyFilters, room)) == rooms
  {
    FilterAll(rooms, room => RoomMatches("", EmptyFilters, room));
  }

  /** Difficulty from easiest to hardest; a difficulty outside the four comes last. */
  function EasiestFirstRank(difficulty: string): int
  {
    if difficulty == "Beginner" then 0
    else if difficulty == "Intermediate" then 1
    else if difficulty == "Advanced" then 2
    else if difficulty == "Expert" then 3
    else 4
  }

  /** Sorting by difficulty ascending orders Beginner, Intermediate, Advanced, Expert, then the rest; descending the reverse. */
  lemma DifficultyAscendingBeginnerFirst(rooms: seq<EscapeRoom>, direction: Direction)
    ensures var s := SortBy(rooms, SortKey(Difficulty, direction, true));
      forall i, j :: 0 <= i < j < |s| ==>
        if direction == Asc then EasiestFirstRank(s[i].difficulty) <= EasiestFirstRank(s[j].difficulty)
        else EasiestFirstRank(s[i].difficulty) >= EasiestFirstRank(s[j].difficulty)
  {
    SortRoomsSorted(rooms, Difficulty, direction, true);
    var s := SortBy(rooms, SortKey(Difficulty, direction, true));
    forall i | 0 <= i < |s|
      ensures AscendingKey(Difficulty, true, s[i]) == EasiestFirstRank(s[i].difficulty) - 3
    {
      EasiestFirstKey(s[i]);
    }
  }

  lemma EasiestFirstKey(room: EscapeRoom)
    ensures AscendingKey(Difficulty, true, room) == EasiestFirstRank(room.difficulty) - 3
  {
    DifficultyIndices();
  }

  class EscapeRoomsPage {
    var escapeRooms: seq<EscapeRoom>
    var filteredRooms: seq<EscapeRoom>
    var searchQuery: string
    var filters: Filters
    var sortOption: Option<SortOption>
    var sortDirection: Direction
    var showSortDropdown: bool

    constructor()
      ensures escapeRooms == [] && filteredRooms == [] && searchQuery == "" && filters == EmptyFilters
      ensures sortOption == None && sortDirection == Asc && !showSortDropdown
    {
      escapeRooms, filteredRooms := [], [];
      searchQuery := "";
      filters := EmptyFilters;
      sortOption, sortDirection := None, Asc;
      showSortDropdown := false;
    }

    /** The effect on the query's data: the catalogue is shown as fetched. */
    method OnRoomsLoaded(rooms: seq<EscapeRoom>)
      modifies this`escapeRooms, this`filteredRooms
      ensures escapeRooms == rooms && filteredRooms == rooms
    {
      escapeRooms := rooms;
      filteredRooms := rooms;
    }

    /** The effect on the filters, the query and the sort: refilter a non-empty catalogue. */
    method Refresh()
      modifies this`filteredRooms
      ensures escapeRooms != [] ==> filteredRooms == Shown(escapeRooms, searchQuery, filters, sortOption, sortDirection)
      ensures escapeRooms == [] ==> filteredRooms == old(filteredRooms)
    {
      if |escapeRooms| > 0 {
        filteredRooms := ApplyFilters(escapeRooms, searchQuery, filters, sortOption, sortDirection);
      }
    }

    /** `handleSortOptionClick`, which also closes the dropdown. */
    method HandleSortOptionClick(clicked: Option<SortOption>)
      modifies this`sortOption, this`sortDirection, this`showSortDropdown
      ensures (sortOption, sortDirection) == NextSort(old(sortOption), old(sortDirection), clicked)
      ensures !showSortDropdown
    {
      var next := NextSort(sortOption, sortDirection, clicked);
      sortOption, sortDirection := next.0, next.1;
      showSortDropdown := false;
    }

    /** `resetFilters`: every field and the query cleared, the whole catalogue shown. */
    method ResetFilters()
      modifies this`filters, this`searchQuery, this`filteredRooms
      ensures filters == EmptyFilters && searchQuery == "" && filteredRooms == escapeRooms
    {
      filters := EmptyFilters;
      searchQuery := "";
      filteredRooms := escapeRooms;
    }
  }
}
