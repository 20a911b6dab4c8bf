/** The spiritual journal: a list of entries with an editor, created or
    updated on save, deleted, starred as favourite and filtered for display. */
module Journal {
  import opened Lists
  import opened Text

  datatype Mood = Happy | Peaceful | Reflective | Grateful | Challenged

  /** The mood's name as stored in an entry and used as a filter value. */
  function MoodName(m: Mood): string
  {
    match m
    case Happy => "happy"
    case Peaceful => "peaceful"
    case Reflective => "reflective"
    case Grateful => "grateful"
    case Challenged => "challenged"
  }

  datatype JournalEntry = JournalEntry(
    id: string, date: string, title: string, content: string, mood: Mood, favorite: bool)

  function IdOf(e: JournalEntry): string
  {
    e.id
  }

  /** `entries.some(entry => entry.id === id)`. */
  predicate HasId(es: seq<JournalEntry>, id: string)
    ensures HasId(es, id) <==> exists e :: e in es && e.id == id
  {
    exists i :: 0 <= i < |es| && es[i].id == id
  }

  /** No two entries share an id. */
  ghost predicate UniqueIds(es: seq<JournalEntry>)
  {
    DistinctKeys(es, IdOf)
  }

  /** What a successful save does to the list: an entry whose id is already
      present replaces every entry with that id in place; a new id goes first. */
  function Upsert(es: seq<JournalEntry>, e: JournalEntry): (r: seq<JournalEntry>)
    ensures HasId(es, e.id) ==> |r| == |es|
    ensures HasId(es, e.id) ==>
      forall i :: 0 <= i < |es| ==> r[i] == (if es[i].id == e.id then e else es[i])
    ensures !HasId(es, e.id) ==> |r| == |es| + 1 && r[0] == e && r[1..] == es
    ensures e in r
    ensures UniqueIds(es) ==> UniqueIds(r)
  {
    if HasId(es, e.id) then
      var r := seq(|es|, i requires 0 <= i < |es| => if es[i].id == e.id then e else es[i]);
      var k :| 0 <= k < |es| && es[k].id == e.id;
      assert r[k] == e;
      assert forall i :: 0 <= i < |es| ==> IdOf(r[i]) == IdOf(es[i]);
      r
    else
      var r := [e] + es;
      assert r[1..] == es;
      assert UniqueIds(es) ==> UniqueIds(r) by {
        if UniqueIds(es) {
          forall i, j | 0 <= i < j < |r| ensures IdOf(r[i]) != IdOf(r[j]) {
            if i == 0 {
              assert r[j] == es[j - 1];
            } else {
              assert r[i] == es[i - 1] && r[j] == es[j - 1];
            }
          }
        }
      }
      r
  }

  /** `entries.filter(entry => entry.id !== id)`. */
  function RemoveById(es: seq<JournalEntry>, id: string): (r: seq<JournalEntry>)
    ensures !HasId(r, id)
    ensures IsSublist(r, es)
    ensures forall i :: 0 <= i < |es| && es[i].id != id ==> es[i] in r
    ensures forall i :: 0 <= i < |r| ==> r[i] in es
    ensures !HasId(es, id) ==> r == es
    ensures UniqueIds(es) ==> UniqueIds(r)
    ensures forall e :: multiset(r)[e] == if e.id == id then 0 else multiset(es)[e]
  {
    var keep := (e: JournalEntry) => e.id != id;
    FilterFacts(es, keep);
    var r := Filter(es, keep);
    SublistKeepsDistinct(r, es, IdOf);
    r
  }

  /** Flip the `favorite` flag of every entry with the id, nothing else. */
  function ToggleFavoriteById(es: seq<JournalEntry>, id: string): (r: seq<JournalEntry>)
    ensures |r| == |es|
    ensures forall i :: 0 <= i < |es| ==>
      r[i].(favorite := es[i].favorite) == es[i] &&
      r[i].favorite == (if es[i].id == id then !es[i].favorite else es[i].favorite)
  {
    seq(|es|, i requires 0 <= i < |es| =>
      if es[i].id == id then es[i].(favorite := !es[i].favorite) else es[i])
  }

  /** Starring twice gives back the original list. */
  lemma ToggleFavoriteTwice(es: seq<JournalEntry>, id: string)
    ensures ToggleFavoriteById(ToggleFavoriteById(es, id), id) == es
  {
    var r := ToggleFavoriteById(ToggleFavoriteById(es, id), id);
    forall i | 0 <= i < |es| ensures r[i] == es[i] {
      assert ToggleFavoriteById(es, id)[i].id == es[i].id;
    }
  }

  /** The filter selected by the row of buttons: `'all'`, `'favorites'`, or a mood name. */
  function Filtered(es: seq<JournalEntry>, filter: string): (r: seq<JournalEntry>)
    ensures IsSublist(r, es)
    ensures filter == "all" ==> r == es
    ensures filter == "favorites" ==>
      (forall i :: 0 <= i < |r| ==> r[i].favorite) &&
      (forall i :: 0 <= i < |es| && es[i].favorite ==> es[i] in r) &&
      (forall e :: multiset(r)[e] == if e.favorite then multiset(es)[e] else 0)
    ensures filter != "all" && filter != "favorites" ==>
      (forall i :: 0 <= i < |r| ==> MoodName(r[i].mood) == filter) &&
      (forall i :: 0 <= i < |es| && MoodName(es[i].mood) == filter ==> es[i] in r) &&
      (forall e :: multiset(r)[e] == if MoodName(e.mood) == filter then multiset(es)[e] else 0)
  {
    if filter == "all" then
      SublistRefl(es);
      es
    else if filter == "favorites" then
      var starred := (e: JournalEntry) => e.favorite;
      FilterFacts(es, starred);
      Filter(es, starred)
    else
      var ofMood := (e: JournalEntry) => MoodName(e.mood) == filter;
      FilterFacts(es, ofMood);
      Filter(es, ofMood)
  }

  /** A save is refused when the title or the content is blank after trimming. */
  predicate CanSave(e: JournalEntry)
  {
    Trim(e.title) != [] && Trim(e.content) != []
  }

  /** The journal page's state: `entries`, `isEditing`, `currentEntry`, `filter`. */
  class JournalPage {
    var entries: seq<JournalEntry>
    var isEditing: bool
    var currentEntry: JournalEntry
    var filter: string

    /** `saved` is what local storage held; `today` is the current date string. */
    constructor (saved: seq<JournalEntry>, today: string)
      ensures entries == saved && !isEditing && filter == "all"
      ensures currentEntry == JournalEntry("", today, "", "", Peaceful, false)
    {
      entries := saved;
      isEditing := false;
      currentEntry := JournalEntry("", today, "", "", Peaceful, false);
      filter := "all";
    }

    /** `handleNewEntry`: open the editor on a blank entry; `id` is the
        timestamp the page takes from the clock. */
    method NewEntry(id: string, today: string)
      modifies this
      ensures isEditing && currentEntry == JournalEntry(id, today, "", "", Peaceful, false)
      ensures entries == old(entries) && filter == old(filter)
    {
      isEditing := true;
      currentEntry := JournalEntry(id, today, "", "", Peaceful, false);
    }

    /** `handleEditEntry`: open the editor on a copy of `entry`. */
    method EditEntry(entry: JournalEntry)
      modifies this
      ensures isEditing && currentEntry == entry
      ensures entries == old(entries) && filter == old(filter)
    {
      isEditing := true;
      currentEntry := entry;
    }

    /** The editor's cancel button. */
    method CancelEdit()
      modifies this
      ensures !isEditing
      ensures entries == old(entries) && currentEntry == old(currentEntry) && filter == old(filter)
    {
      isEditing := false;
    }

    /** `handleSaveEntry`. */
    method SaveEntry()
      modifies this
      ensures currentEntry == old(currentEntry) && filter == old(filter)
      ensures !CanSave(currentEntry) ==> entries == old(entries) && isEditing == old(isEditing)
      ensures CanSave(currentEntry) ==> entries == Upsert(old(entries), currentEntry) && !isEditing
      ensures UniqueIds(old(entries)) ==> UniqueIds(entries)
    {
      if !CanSave(currentEntry) {
        return;
      }
      entries := Upsert(entries, currentEntry);
      isEditing := false;
    }

    /** `handleDeleteEntry`: the editor closes only when it holds the deleted id. */
    method DeleteEntry(id: string)
      modifies this
      ensures entries == RemoveById(old(entries), id)
      ensures isEditing == (old(isEditing) && old(currentEntry).id != id)
      ensures currentEntry == old(currentEntry) && filter == old(filter)
      ensures UniqueIds(old(entries)) ==> UniqueIds(entries)
    {
      entries := RemoveById(entries, id);
      if currentEntry.id == id {
        isEditing := false;
      }
    }

    /** `handleToggleFavorite`. */
    method ToggleFavorite(id: string)
      modifies this
      ensures entries == ToggleFavoriteById(old(entries), id)
      ensures isEditing == old(isEditing) && currentEntry == old(currentEntry) && filter == old(filter)
    {
      entries := ToggleFavoriteById(entries, id);
    }

    /** One of the filter buttons. */
    method SetFilter(f: string)
      modifies this
      ensures filter == f
      ensures entries == old(entries) && isEditing == old(isEditing) && currentEntry == old(currentEntry)
    {
      filter := f;
    }

    /** `filteredEntries`, the list shown on the left: always drawn from the
        entries in their order; all of them under "all", exactly the starred
        ones under "favorites", and exactly those of the mood otherwise. */
    function FilteredEntries(): (r: seq<JournalEntry>)
      reads this
      ensures IsSublist(r, entries)
      ensures filter == "all" ==> r == entries
      ensures filter == "favorites" ==>
        (forall i :: 0 <= i < |r| ==> r[i].favorite) &&
        (forall e :: multiset(r)[e] == if e.favorite then multiset(entries)[e] else 0)
      ensures filter != "all" && filter != "favorites" ==>
        (forall i :: 0 <= i < |r| ==> MoodName(r[i].mood) == filter) &&
        (forall e :: multiset(r)[e] == if MoodName(e.mood) == filter then multiset(entries)[e] else 0)
    {
      Filtered(entries, filter)
    }
  }
}
