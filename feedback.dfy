/**
 The answer registry and the like/dislike bookkeeping of the chat window, as values:
 each registered answer has an id, its text and an optional rating (`None` until the
 user presses one of its two buttons, then `Some(true)` for a like and `Some(false)`
 for a dislike). The counters the window keeps must always equal the number of
 answers currently rated each way; the lemmas here are what the session class uses
 to keep that invariant.
 */
module Feedback {

  datatype Option<T> = None | Some(value: T)

  /** One entry of the answer registry: the answer text and its current rating. */
  datatype Entry = Entry(text: string, rating: Option<bool>)

  /** The ids of the answers currently rated with the given polarity. */
  function Rated(entries: map<int, Entry>, polarity: bool): set<int> {
    set id | id in entries && entries[id].rating == Some(polarity)
  }

  /** The ids of the answers that carry any rating. */
  function AnyRated(entries: map<int, Entry>): set<int> {
    set id | id in entries && entries[id].rating.Some?
  }

  /** The registry after the entry `id` was rated `positive`: only its rating changes. */
  function WithRating(entries: map<int, Entry>, id: int, positive: bool): (r: map<int, Entry>)
    requires id in entries
    ensures r.Keys == entries.Keys
    ensures r[id] == Entry(entries[id].text, Some(positive))
    ensures forall other :: other in entries && other != id ==> r[other] == entries[other]
  {
    entries[id := entries[id].(rating := Some(positive))]
  }

  /** A like and a dislike never overlap, and together they are exactly the rated answers. */
  lemma RatedPartition(entries: map<int, Entry>)
    ensures Rated(entries, true) !! Rated(entries, false)
    ensures Rated(entries, true) + Rated(entries, false) == AnyRated(entries)
  {
    forall id | id in AnyRated(entries)
      ensures id in Rated(entries, true) || id in Rated(entries, false)
    {
      if entries[id].rating.value {
        assert id in Rated(entries, true);
      } else {
        assert id in Rated(entries, false);
      }
    }
  }

  /** Likes plus dislikes equal the number of rated answers, which is at most the
      number of registered answers. */
  lemma CountsBound(entries: map<int, Entry>)
    ensures |Rated(entries, true)| + |Rated(entries, false)| == |AnyRated(entries)|
    ensures |AnyRated(entries)| <= |entries|
  {
    RatedPartition(entries);
    SubsetCard(AnyRated(entries), entries.Keys);
  }

  lemma SubsetCard(a: set<int>, b: set<int>)
    requires a <= b
    ensures |a| <= |b|
  {
    assert b == a + (b - a);
    assert a * (b - a) == {};
  }

  /** Rating entry `id` with `positive` adds it to that polarity's bucket and
      removes it from the other one; every other entry stays where it was. */
  lemma RatedAfterRating(entries: map<int, Entry>, id: int, positive: bool, polarity: bool)
    requires id in entries
    ensures Rated(WithRating(entries, id, positive), polarity)
         == if polarity == positive then Rated(entries, polarity) + {id}
            else Rated(entries, polarity) - {id}
  {
  }

  /** The counter arithmetic of a rating (the decrement of the old bucket followed
      by the increment of the new one) keeps both counters equal to the bucket sizes. */
  lemma {:induction false} CountsAfterRating(entries: map<int, Entry>, id: int, positive: bool)
    requires id in entries
    ensures var after := WithRating(entries, id, positive);
            var previous := entries[id].rating;
            && |Rated(after, true)|
               == |Rated(entries, true)| - (if previous == Some(true) then 1 else 0) + (if positive then 1 else 0)
            && |Rated(after, false)|
               == |Rated(entries, false)| - (if previous == Some(false) then 1 else 0) + (if positive then 0 else 1)
  {
    var after := WithRating(entries, id, positive);
    RatedAfterRating(entries, id, positive, true);
    RatedAfterRating(entries, id, positive, false);
    var likes, dislikes := Rated(entries, true), Rated(entries, false);
    assert id in likes <==> entries[id].rating == Some(true);
    assert id in dislikes <==> entries[id].rating == Some(false);
    if positive {
      assert |likes + {id}| == |likes| + (if id in likes then 0 else 1);
      assert |dislikes - {id}| == |dislikes| - (if id in dislikes then 1 else 0);
    } else {
      assert |dislikes + {id}| == |dislikes| + (if id in dislikes then 0 else 1);
      assert |likes - {id}| == |likes| - (if id in likes then 1 else 0);
    }
  }

  /** Registering a fresh, unrated answer leaves both buckets as they were. */
  lemma RatedAfterRegister(entries: map<int, Entry>, id: int, text: string, polarity: bool)
    requires id !in entries
    ensures Rated(entries[id := Entry(text, None)], polarity) == Rated(entries, polarity)
  {
  }

  /** The satisfaction percentage shown in the window title: `None` while no answer
      is rated, otherwise likes over all ratings, times 100. */
  function SatisfactionPercent(likes: nat, dislikes: nat): (r: Option<real>)
    ensures r.Some? <==> likes + dislikes > 0
    ensures r.Some? ==> 0.0 <= r.value <= 100.0
    ensures r.Some? ==> r.value * (likes + dislikes) as real == likes as real * 100.0
    ensures r.Some? ==> (r.value == 100.0 <==> dislikes == 0) && (r.value == 0.0 <==> likes == 0)
  {
    var total := likes + dislikes;
    if total > 0 then
      var p := (likes as real / total as real) * 100.0;
      assert p * total as real == likes as real * 100.0;
      Some(p)
    else None
  }
}
