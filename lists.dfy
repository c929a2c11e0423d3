/**
  * The list pages (pages/players/PlayersList.jsx, pages/teams/TeamsList.jsx,
  * pages/users/UsersList.jsx): a case-insensitive name search, applied only
  * when the search button is pressed, and on the player and team pages a
  * "show only mine" checkbox.
  */
module Lists {
  import opened Text
  import opened Errors

  /** `b` keeps some of the elements of `a`, in their original order. */
  predicate Subsequence<T(==)>(b: seq<T>, a: seq<T>)
    decreases |a|
  {
    if a == [] then b == []
    else (|b| > 0 && b[0] == a[0] && Subsequence(b[1..], a[1..])) || Subsequence(b, a[1..])
  }

  /** `Array.prototype.filter`. */
  function Keep<T(==,!new)>(items: seq<T>, keep: T -> bool): (r: seq<T>)
    ensures Subsequence(r, items)
    ensures forall x :: x in r <==> x in items && keep(x)
    ensures forall x :: multiset(r)[x] == if keep(x) then multiset(items)[x] else 0
    ensures |r| <= |items|
    decreases |items|
  {
    if items == [] then []
    else
      assert items == [items[0]] + items[1..];
      if keep(items[0]) then [items[0]] + Keep(items[1..], keep)
      else Keep(items[1..], keep)
  }

  /** A filter that keeps every element is the identity. */
  lemma {:induction false} KeepAll<T(!new)>(items: seq<T>, keep: T -> bool)
    requires forall i :: 0 <= i < |items| ==> keep(items[i])
    ensures Keep(items, keep) == items
    decreases |items|
  {
    if items != [] {
      KeepAll(items[1..], keep);
      assert [items[0]] + items[1..] == items;
    }
  }

  /** `name.toLowerCase().includes(search.toLowerCase())`, for ASCII letters. */
  predicate MatchesSearch(name: string, search: string) {
    Contains(Lower(name), Lower(search))
  }

  /** `filterMine ? item.user_id === user?.id : true`; without a signed-in user nothing is one's own. */
  predicate MatchesOwner(filterMine: bool, owner: int, currentUser: Option<int>) {
    !filterMine || currentUser == Some(owner)
  }

  /** The empty search matches every name. */
  lemma EmptySearchMatches(name: string)
    ensures MatchesSearch(name, "")
  {
    assert Lower("") == "";
  }

  /** The search ignores the case of ASCII letters on both sides. */
  lemma SearchIgnoresCase(name: string, search: string)
    ensures MatchesSearch(name, search) <==> MatchesSearch(Lower(name), Lower(search))
  {
    LowerIdempotent(name);
    LowerIdempotent(search);
  }

  datatype PlayerItem = PlayerItem(id: int, name: string, position: string, owner: int)
  datatype TeamItem = TeamItem(id: int, name: string, owner: int)
  datatype UserItem = UserItem(id: int, name: string, email: string)

  /** `filteredPlayers`. */
  function FilteredPlayers(players: seq<PlayerItem>, search: string, filterMine: bool, currentUser: Option<int>)
    : (r: seq<PlayerItem>)
    ensures Subsequence(r, players)
    ensures forall p :: p in r <==> p in players && MatchesSearch(p.name, search)
                                    && MatchesOwner(filterMine, p.owner, currentUser)
    ensures forall p :: multiset(r)[p] == if MatchesSearch(p.name, search) && MatchesOwner(filterMine, p.owner, currentUser)
                                          then multiset(players)[p] else 0
  {
    Keep(players, (p: PlayerItem) => MatchesSearch(p.name, search) && MatchesOwner(filterMine, p.owner, currentUser))
  }

  /** `filteredTeams`. */
  function FilteredTeams(teams: seq<TeamItem>, search: string, filterMine: bool, currentUser: Option<int>)
    : (r: seq<TeamItem>)
    ensures Subsequence(r, teams)
    ensures forall t :: t in r <==> t in teams && MatchesSearch(t.name, search)
                                    && MatchesOwner(filterMine, t.owner, currentUser)
    ensures forall t :: multiset(r)[t] == if MatchesSearch(t.name, search) && MatchesOwner(filterMine, t.owner, currentUser)
                                          then multiset(teams)[t] else 0
  {
    Keep(teams, (t: TeamItem) => MatchesSearch(t.name, search) && MatchesOwner(filterMine, t.owner, currentUser))
  }

  /** `filteredUsers`. */
  function FilteredUsers(users: seq<UserItem>, search: string): (r: seq<UserItem>)
    ensures Subsequence(r, users)
    ensures forall u :: u in r <==> u in users && MatchesSearch(u.name, search)
    ensures forall u :: multiset(r)[u] == if MatchesSearch(u.name, search) then multiset(users)[u] else 0
  {
    Keep(users, (u: UserItem) => MatchesSearch(u.name, search))
  }

  /** With the empty search and the checkbox off, every player and every team is listed. */
  lemma {:induction false} NoFilterKeepsEverything(players: seq<PlayerItem>, teams: seq<TeamItem>,
                                                   users: seq<UserItem>, currentUser: Option<int>)
    ensures FilteredPlayers(players, "", false, currentUser) == players
    ensures FilteredTeams(teams, "", false, currentUser) == teams
    ensures FilteredUsers(users, "") == users
  {
    forall i | 0 <= i < |players| ensures MatchesSearch(players[i].name, "") {
      EmptySearchMatches(players[i].name);
    }
    KeepAll(players, (p: PlayerItem) => MatchesSearch(p.name, "") && MatchesOwner(false, p.owner, currentUser));
    forall i | 0 <= i < |teams| ensures MatchesSearch(teams[i].name, "") {
      EmptySearchMatches(teams[i].name);
    }
    KeepAll(teams, (t: TeamItem) => MatchesSearch(t.name, "") && MatchesOwner(false, t.owner, currentUser));
    forall i | 0 <= i < |users| ensures MatchesSearch(users[i].name, "") {
      EmptySearchMatches(users[i].name);
    }
    KeepAll(users, (u: UserItem) => MatchesSearch(u.name, ""));
  }

  /**
    * The `text`, `search` and "only mine" state of the player and team
    * pages. Typing changes only `text`; the search button copies it into
    * `search`, which is what the list is filtered by.
    */
  class ListControls {
    var text: string
    var search: string
    var filterMine: bool

    /** `useState('')` three times; the empty string is the unchecked box. */
    constructor ()
      ensures text == "" && search == "" && !filterMine
    {
      text, search, filterMine := "", "", false;
    }

    /** The search input's `onChange`. */
    method Type(value: string)
      modifies this
      ensures text == value && search == old(search) && filterMine == old(filterMine)
    {
      text := value;
    }

    /** The search button's `onClick`. */
    method Submit()
      modifies this
      ensures search == old(text) && text == old(text) && filterMine == old(filterMine)
    {
      search := text;
    }

    /** The checkbox's `onChange`. */
    method Toggle()
      modifies this
      ensures filterMine == !old(filterMine) && text == old(text) && search == old(search)
    {
      filterMine := !filterMine;
    }

    function ShownPlayers(players: seq<PlayerItem>, currentUser: Option<int>): (r: seq<PlayerItem>)
      reads this
      ensures Subsequence(r, players)
    {
      FilteredPlayers(players, search, filterMine, currentUser)
    }

    function ShownTeams(teams: seq<TeamItem>, currentUser: Option<int>): (r: seq<TeamItem>)
      reads this
      ensures Subsequence(r, teams)
    {
      FilteredTeams(teams, search, filterMine, currentUser)
    }
  }

  /** The `text` and `search` state of the users page, which has no checkbox. */
  class SearchControls {
    var text: string
    var search: string

    constructor ()
      ensures text == "" && search == ""
    {
      text, search := "", "";
    }

    method Type(value: string)
      modifies this
      ensures text == value && search == old(search)
    {
      text := value;
    }

    method Submit()
      modifies this
      ensures search == old(text) && text == old(text)
    {
      search := text;
    }

    function ShownUsers(users: seq<UserItem>): (r: seq<UserItem>)
      reads this
      ensures Subsequence(r, users)
    {
      FilteredUsers(users, search)
    }
  }

  /** Typing leaves the shown list alone; pressing search then shows the list for the typed text. */
  method TypeThenSubmit(controls: ListControls, value: string, players: seq<PlayerItem>, currentUser: Option<int>)
    returns (whileTyping: seq<PlayerItem>, afterSubmit: seq<PlayerItem>)
    modifies controls
    ensures whileTyping == FilteredPlayers(players, old(controls.search), old(controls.filterMine), currentUser)
    ensures afterSubmit == FilteredPlayers(players, value, old(controls.filterMine), currentUser)
  {
    controls.Type(value);
    whileTyping := controls.ShownPlayers(players, currentUser);
    controls.Submit();
    afterSubmit := controls.ShownPlayers(players, currentUser);
  }

  /** Two clicks on the checkbox restore it. */
  method ToggleTwice(controls: ListControls)
    modifies controls
    ensures controls.filterMine == old(controls.filterMine)
    ensures controls.text == old(controls.text) && controls.search == old(controls.search)
  {
    controls.Toggle();
    controls.Toggle();
  }
}
