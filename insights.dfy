/** The wisdom-quotes tab: a favourites list of quote texts and a
    case-insensitive search over quote text and author. */
module Insights {
  import opened Lists
  import opened Text

  datatype Quote = Quote(text: string, author: string)

  /** The quote's lower-cased text or author contains the lower-cased term. */
  predicate Matches(q: Quote, term: string)
  {
    Contains(Lower(q.text), Lower(term)) || Contains(Lower(q.author), Lower(term))
  }

  /** The filter callback of the search, for an already lower-cased term. */
  function HasLowered(term: string): Quote -> bool
  {
    (q: Quote) => Contains(Lower(q.text), term) || Contains(Lower(q.author), term)
  }

  /** The search effect: a term that is blank after trimming shows every quote;
      any other term, used untrimmed, keeps the matching quotes in order. */
  function Search(quotes: seq<Quote>, searchTerm: string): (r: seq<Quote>)
    ensures IsSublist(r, quotes)
    ensures IsBlank(searchTerm) ==> r == quotes
    ensures !IsBlank(searchTerm) ==>
      (forall i :: 0 <= i < |r| ==> Matches(r[i], searchTerm)) &&
      (forall i :: 0 <= i < |quotes| && Matches(quotes[i], searchTerm) ==> quotes[i] in r) &&
      (forall q :: multiset(r)[q] == if Matches(q, searchTerm) then multiset(quotes)[q] else 0)
  {
    if Trim(searchTerm) == "" then
      SublistRefl(quotes);
      quotes
    else
      FilterFacts(quotes, HasLowered(Lower(searchTerm)));
      Filter(quotes, HasLowered(Lower(searchTerm)))
  }

  /** `toggleFavorite`: membership of the quote text always flips. */
  function ToggleFavorite(favorites: seq<string>, quoteText: string): (r: seq<string>)
    ensures quoteText in r <==> quoteText !in favorites
    ensures forall i :: 0 <= i < |favorites| && favorites[i] != quoteText ==> favorites[i] in r
    ensures forall i :: 0 <= i < |r| && r[i] != quoteText ==> r[i] in favorites
    ensures quoteText !in favorites ==> r == favorites + [quoteText]
    ensures quoteText in favorites ==> IsSublist(r, favorites)
    ensures quoteText in favorites ==> forall t ::
      multiset(r)[t] == if t == quoteText then 0 else multiset(favorites)[t]
  {
    ToggleMember(favorites, quoteText)
  }

  /** Favouriting and unfavouriting a quote leaves the list as it was. */
  lemma ToggleFavoriteTwice(favorites: seq<string>, quoteText: string)
    requires quoteText !in favorites
    ensures ToggleFavorite(ToggleFavorite(favorites, quoteText), quoteText) == favorites
  {
    ToggleMemberTwiceAbsent(favorites, quoteText);
  }

  /** The "Favorites" chip only searches for the word "favorite": a quote whose
      text and author lack the letter f is never shown by it, whether or not
      the user has favourited it. */
  lemma FavoritesChipIsTextSearch(q: Quote)
    requires 'f' !in q.text && 'F' !in q.text && 'f' !in q.author && 'F' !in q.author
    ensures Search([q], "favorite") == []
  {
    NotFound(q.text, "favorite", 'f');
    NotFound(q.author, "favorite", 'f');
    assert !Matches(q, "favorite");
    assert !IsBlank("favorite") by {
      assert !IsWhitespace("favorite"[0]);
    }
  }

  /** A quote of the built-in table. */
  const Homecoming := Quote("We are all just walking each other home.", "Ram Dass")

  lemma HomecomingTextLacksF()
    ensures 'f' !in "We are all just walking each other home."
    ensures 'F' !in "We are all just walking each other home."
  {
  }

  lemma HomecomingAuthorLacksF()
    ensures 'f' !in Homecoming.author && 'F' !in Homecoming.author
  {
  }

  /** Starring that quote puts its text in the favourites, yet the chip
      still shows nothing for it. */
  lemma FavoritesChipHidesAFavorite(favorites: seq<string>)
    requires Homecoming.text !in favorites
    ensures Homecoming.text in ToggleFavorite(favorites, Homecoming.text)
    ensures Search([Homecoming], "favorite") == []
  {
    HomecomingTextLacksF();
    HomecomingAuthorLacksF();
    FavoritesChipIsTextSearch(Homecoming);
  }

  /** The term is not trimmed: with a leading space it no longer matches
      an author it matches without one. */
  lemma SearchTermIsNotTrimmed(q: Quote)
    requires Lower(q.author) == "rumi" && 'm' !in q.text && 'M' !in q.text
    ensures Search([q], "rumi") == [q] && Search([q], " rumi") == []
  {
    assert Lower("rumi") == "rumi";
    assert Contains(Lower(q.author), "rumi");
    assert Matches(q, "rumi");
    assert Lower(" rumi") == " rumi";
    NotFound(q.text, " rumi", 'm');
    assert !Contains(Lower(q.author), " rumi");
    assert !Matches(q, " rumi");
    assert !IsBlank("rumi") by {
      assert !IsWhitespace("rumi"[0]);
    }
    assert !IsBlank(" rumi") by {
      assert !IsWhitespace(" rumi"[1]);
    }
  }

  /** A term with a letter that the string lacks in both cases is not found in it. */
  lemma NotFound(s: string, term: string, c: char)
    requires 'a' <= c <= 'z' && c !in s && (c as int - 32) as char !in s
    requires c in term && Lower(term) == term
    ensures !Contains(Lower(s), term)
  {
    if Contains(Lower(s), term) {
      var k :| 0 <= k < |term| && term[k] == c;
      ContainsHasChars(Lower(s), term, k);
      LowerHasChar(s, c);
    }
  }

  /** The quotes tab's state. */
  class InsightsPage {
    var quotes: seq<Quote>
    var searchTerm: string
    var filteredQuotes: seq<Quote>
    var favorites: seq<string>

    /** The shown list is always the search of the current term. */
    ghost predicate Valid()
      reads this
    {
      filteredQuotes == Search(quotes, searchTerm)
    }

    /** `all` is the built-in quote table; `saved` the favourites local storage held. */
    constructor (all: seq<Quote>, saved: seq<string>)
      ensures Valid()
      ensures quotes == all && filteredQuotes == all && searchTerm == "" && favorites == saved
    {
      quotes := all;
      searchTerm := "";
      filteredQuotes := all;
      favorites := saved;
      new;
      assert IsBlank(searchTerm);
    }

    /** The search box and the chips; the search effect runs on the new term. */
    method SetSearchTerm(term: string)
      modifies this
      ensures Valid()
      ensures searchTerm == term && filteredQuotes == Search(quotes, term)
      ensures quotes == old(quotes) && favorites == old(favorites)
    {
      searchTerm := term;
      if Trim(searchTerm) == "" {
        filteredQuotes := quotes;
      } else {
        var lowered := Lower(searchTerm);
        filteredQuotes := Filter(quotes, HasLowered(lowered));
      }
    }

    /** The "Favorites" chip. */
    method SelectFavoritesChip()
      modifies this
      ensures Valid()
      ensures searchTerm == "favorite" && filteredQuotes == Search(quotes, "favorite")
      ensures quotes == old(quotes) && favorites == old(favorites)
    {
      SetSearchTerm("favorite");
    }

    /** `toggleFavorite`. */
    method ToggleFavoriteQuote(quoteText: string)
      requires Valid()
      modifies this
      ensures Valid()
      ensures favorites == ToggleFavorite(old(favorites), quoteText)
      ensures quotes == old(quotes) && searchTerm == old(searchTerm) && filteredQuotes == old(filteredQuotes)
    {
      favorites := ToggleFavorite(favorites, quoteText);
    }
  }
}
