/**
 * The older catalogue page: the same seven filter fields and sort options
 * without the text search, difficulty sorted ascending with Expert first,
 * and a text label for the sort button.
 */
module LegacyRoomsPage {
  import opened Wrappers
  import opened Js
  import opened BookingModel
  import opened Sequences
  import opened RoomCatalog
  import RoomsPage

  /** The list the page shows: the rooms passing the filter fields, sorted when an option is selected. */
  function Shown(rooms: seq<EscapeRoom>, f: Filters, option: Option<SortOption>, direction: Direction): (r: seq<EscapeRoom>)
    ensures option.None? ==> r == Filter(rooms, room => FiltersMatch(f, room))
    ensures |r| <= |rooms|
  {
    ArrangedPermutes(Filter(rooms, room => FiltersMatch(f, room)), option, direction, false);
    Arranged(Filter(rooms, room => FiltersMatch(f, room)), option, direction, false)
  }

  /** `applyFilters`: the seven filter steps, then the sort when an option is selected. */
  method ApplyFilters(rooms: seq<EscapeRoom>, f: Filters, option: Option<SortOption>, direction: Direction)
    returns (result: seq<EscapeRoom>)
    ensures result == Shown(rooms, f, option, direction)
  {
    result := ApplyFieldFilters(rooms, f);
    if option.Some? {
      result := SortRooms(result, option.value, direction, false);
    }
  }

  /** The filters are the newer page's with an empty search, and the unsorted list keeps the catalogue's order. */
  lemma FiltersAsNewerPage(rooms: seq<EscapeRoom>, f: Filters)
    ensures Filter(rooms, room => FiltersMatch(f, room)) == Filter(rooms, room => RoomsPage.RoomMatches("", f, room))
    ensures Subsequence(Shown(rooms, f, None, Asc), rooms)
  {
    FilterExt(rooms, room => FiltersMatch(f, room), room => RoomsPage.RoomMatches("", f, room));
  }

  /** Every sort option rearranges the filtered rooms and nothing else. */
  lemma ShownPermutes(rooms: seq<EscapeRoom>, f: Filters, option: Option<SortOption>, direction: Direction)
    ensures multiset(Shown(rooms, f, option, direction)) == multiset(Filter(rooms, room => FiltersMatch(f, room)))
  {
    ArrangedPermutes(Filter(rooms, room => FiltersMatch(f, room)), option, direction, false);
  }

  /** Difficulty from hardest to easiest; a difficulty outside the four comes first. */
  function HardestFirstRank(difficulty: string): int
  {
    if difficulty == "Expert" then 0
    else if difficulty == "Advanced" then 1
    else if difficulty == "Intermediate" then 2
    else if difficulty == "Beginner" then 3
    else -1
  }

  lemma HardestFirstKey(room: EscapeRoom)
    ensures AscendingKey(Difficulty, false, room) == HardestFirstRank(room.difficulty)
  {
    DifficultyIndices();
  }

  /** Sorting by difficulty ascending orders Expert, Advanced, Intermediate, Beginner, after any other; descending the reverse. */
  lemma DifficultyAscendingExpertFirst(rooms: seq<EscapeRoom>, direction: Direction)
    ensures var s := SortBy(rooms, SortKey(Difficulty, direction, false));
      forall i, j :: 0 <= i < j < |s| ==>
        if direction == Asc then HardestFirstRank(s[i].difficulty) <= HardestFirstRank(s[j].difficulty)
        else HardestFirstRank(s[i].difficulty) >= HardestFirstRank(s[j].difficulty)
  {
    SortRoomsSorted(rooms, Difficulty, direction, false);
    var s := SortBy(rooms, SortKey(Difficulty, direction, false));
    forall i | 0 <= i < |s|
      ensures AscendingKey(Difficulty, false, s[i]) == HardestFirstRank(s[i].difficulty)
    {
      HardestFirstKey(s[i]);
    }
  }

  /** The two pages order the four difficulties oppositely. */
  lemma DifficultyOrdersOpposite(d: string)
    requires d in DifficultiesOrder
    ensures HardestFirstRank(d) == 3 - RoomsPage.EasiestFirstRank(d)
  {
  }

  function OptionLabel(option: SortOption): string
  {
    match option
    case Rating => "Rating"
    case Difficulty => "Difficulty"
    case Age => "Age"
    case Players => "Players"
    case Duration => "Duration"
    case Price => "Price"
  }

  const ArrowUp: string := "\U{2191}"
  const ArrowDown: string := "\U{2193}"

  /** `getSortLabel`: "Sort ↑↓" with no option, else the option's label and the direction's arrow. */
  function SortLabel(option: Option<SortOption>, direction: Direction): (text: string)
    ensures option.None? ==> text == "Sort " + ArrowUp + ArrowDown
    ensures option.Some? ==> text == OptionLabel(option.value) + " " + (if direction == Asc then ArrowUp else ArrowDown)
  {
    if option.None? then "Sort " + ArrowUp + ArrowDown
    else OptionLabel(option.value) + " " + (if direction == Asc then ArrowUp else ArrowDown)
  }

  /** The label tells the selected option and its direction apart. */
  lemma SortLabelDistinguishes(o1: SortOption, d1: Direction, o2: SortOption, d2: Direction)
    requires SortLabel(Some(o1), d1) == SortLabel(Some(o2), d2)
    ensures o1 == o2 && d1 == d2
  {
    var l1, l2 := SortLabel(Some(o1), d1), SortLabel(Some(o2), d2);
    var n1, n2 := |OptionLabel(o1)|, |OptionLabel(o2)|;
    assert |l1| == n1 + 2 && |l2| == n2 + 2;
    assert l1[..n1] == OptionLabel(o1) && l2[..n2] == OptionLabel(o2);
    assert l1[n1 + 1] == (if d1 == Asc then '\U{2191}' else '\U{2193}');
    assert l2[n2 + 1] == (if d2 == Asc then '\U{2191}' else '\U{2193}');
  }

  /** With an option selected the label never reads like the unsorted one. */
  lemma SortLabelOfNone(o: SortOption, d: Direction)
    ensures SortLabel(Some(o), d) != SortLabel(None, Asc)
  {
    var l := SortLabel(Some(o), d);
    var n := |OptionLabel(o)|;
    assert l[n] == ' ';
    assert SortLabel(None, Asc)[4] == ' ';
  }

  class LegacyEscapeRoomsPage {
    var escapeRooms: seq<EscapeRoom>
    var filteredRooms: seq<EscapeRoom>
    var filters: Filters
    var sortOption: Option<SortOption>
    var sortDirection: Direction
    var showSortDropdown: bool

    constructor()
      ensures escapeRooms == [] && filteredRooms == [] && filters == EmptyFilters
      ensures sortOption == None && sortDirection == Asc && !showSortDropdown
    {
      escapeRooms, filteredRooms := [], [];
      filters := EmptyFilters;
      sortOption, sortDirection := None, Asc;
      showSortDropdown := false;
    }

    /** The effect on the query's data: the catalogue is shown as fetched. */
    method OnRoomsLoaded(rooms: seq<EscapeRoom>)
      modifies this`escapeRooms, this`filteredRooms
      ensures escapeRooms == rooms && filteredRooms == rooms
    {
      escapeRooms := rooms;
      filteredRooms := rooms;
    }

    /** The effect on the filters and the sort: refilter a non-empty catalogue. */
    method Refresh()
      modifies this`filteredRooms
      ensures escapeRooms != [] ==> filteredRooms == Shown(escapeRooms, filters, sortOption, sortDirection)
      ensures escapeRooms == [] ==> filteredRooms == old(filteredRooms)
    {
      if |escapeRooms| > 0 {
        filteredRooms := ApplyFilters(escapeRooms, filters, sortOption, sortDirection);
      }
    }

    /** `handleSortOptionClick`, which also closes the dropdown. */
    method HandleSortOptionClick(clicked: Option<SortOption>)
      modifies this`sortOption, this`sortDirection, this`showSortDropdown
      ensures (sortOption, sortDirection) == NextSort(old(sortOption), old(sortDirection), clicked)
      ensures !showSortDropdown
    {
      var next := NextSort(sortOption, sortDirection, clicked);
      sortOption, sortDirection := next.0, next.1;
      showSortDropdown := false;
    }

    /** `resetFilters`: every field cleared, the whole catalogue shown. */
    method ResetFilters()
      modifies this`filters, this`filteredRooms
      ensures filters == EmptyFilters && filteredRooms == escapeRooms
    {
      filters := EmptyFilters;
      filteredRooms := escapeRooms;
    }

    /** The sort button's text. */
    function SortButtonLabel(): string
      reads this`sortOption, this`sortDirection
    {
      SortLabel(sortOption, sortDirection)
    }
  }
}
