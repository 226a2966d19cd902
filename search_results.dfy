/**
 * Extraction of search results from the store's JSON response: the
 * `searchResults` list of the search screen and the method that refills it.
 */
module SearchResults {
  import opened Optional
  import opened Json

  /** One search hit; every part is optional, as the record's own fields are. */
  datatype Track = Track(name: Option<string>, artist: Option<string>, previewUrl: Option<string>)

  /** An element of `"results"` yields a track: a dictionary with a string `previewUrl`. */
  predicate IsTrackEntry(entry: Json): (b: bool)
    ensures b <==> entry.JObject? && "previewUrl" in entry.fields && entry.fields["previewUrl"].JString?
  {
    entry.JObject? && StringField(entry.fields, "previewUrl").Some?
  }

  /** The track built from a qualifying element. */
  function TrackFrom(entry: Json): (t: Track)
    requires IsTrackEntry(entry)
    ensures t.previewUrl.Some? && entry.fields["previewUrl"] == JString(t.previewUrl.value)
    ensures t.name.Some? <==> "trackName" in entry.fields && entry.fields["trackName"].JString?
    ensures t.name.Some? ==> entry.fields["trackName"] == JString(t.name.value)
    ensures t.artist.Some? <==> "artistName" in entry.fields && entry.fields["artistName"].JString?
    ensures t.artist.Some? ==> entry.fields["artistName"] == JString(t.artist.value)
  {
    Track(StringField(entry.fields, "trackName"),
          StringField(entry.fields, "artistName"),
          StringField(entry.fields, "previewUrl"))
  }

  /** The tracks of a `"results"` array, in order, skipping every other element. */
  function ExtractTracks(items: seq<Json>): (ts: seq<Track>)
    ensures |ts| <= |items|
  {
    if items == [] then []
    else
      var last := items[|items| - 1];
      ExtractTracks(items[..|items| - 1]) + (if IsTrackEntry(last) then [TrackFrom(last)] else [])
  }

  /** How many elements of `items` yield a track. */
  function CountEntries(items: seq<Json>): (n: nat)
    ensures n <= |items|
  {
    if items == [] then 0
    else CountEntries(items[..|items| - 1]) + (if IsTrackEntry(items[|items| - 1]) then 1 else 0)
  }

  /** Exactly one track per qualifying element. */
  lemma {:induction false} ExtractLength(items: seq<Json>)
    ensures |ExtractTracks(items)| == CountEntries(items)
  {
    if items != [] {
      ExtractLength(items[..|items| - 1]);
    }
  }

  /**
   * The track of the qualifying element `i` sits at the position given by
   * the number of qualifying elements before it.
   */
  lemma {:induction false} ExtractAt(items: seq<Json>, i: nat)
    requires i < |items| && IsTrackEntry(items[i])
    ensures CountEntries(items[..i]) < |ExtractTracks(items)|
    ensures ExtractTracks(items)[CountEntries(items[..i])] == TrackFrom(items[i])
  {
    var init := items[..|items| - 1];
    if i == |items| - 1 {
      assert init == items[..i];
      ExtractLength(init);
    } else {
      assert init[..i] == items[..i];
      ExtractAt(init, i);
    }
  }

  /** Every extracted track comes from a qualifying element, at its position. */
  lemma {:induction false} ExtractOrigin(items: seq<Json>, j: nat)
    requires j < |ExtractTracks(items)|
    ensures exists i :: 0 <= i < |items| && IsTrackEntry(items[i]) &&
                        CountEntries(items[..i]) == j && ExtractTracks(items)[j] == TrackFrom(items[i])
  {
    var n := |items| - 1;
    var init := items[..n];
    ExtractLength(init);
    if j < |ExtractTracks(init)| {
      ExtractOrigin(init, j);
      var i :| 0 <= i < n && IsTrackEntry(init[i]) &&
               CountEntries(init[..i]) == j && ExtractTracks(init)[j] == TrackFrom(init[i]);
      assert init[..i] == items[..i];
    } else {
      assert init == items[..n];
      assert IsTrackEntry(items[n]) && CountEntries(items[..n]) == j;
    }
  }

  /** Counting qualifying elements strictly grows past each of them: input order is kept. */
  lemma {:induction false} CountIncreasing(items: seq<Json>, i: nat, k: nat)
    requires i < k <= |items| && IsTrackEntry(items[i])
    ensures CountEntries(items[..i]) < CountEntries(items[..k])
  {
    var prefix := items[..k];
    assert prefix[..k - 1] == items[..k - 1];
    if i < k - 1 {
      CountIncreasing(items, i, k - 1);
    } else {
      assert prefix[k - 1] == items[i];
    }
  }

  /** What the parsed response offers under the `"results"` key. */
  datatype ResultsField = NoResults | NotAnArray | Entries(items: seq<Json>)

  /**
   * No results without data, without a top-level dictionary or without the
   * key; the elements when the key holds an array; anything else fails the
   * forced cast to an array.
   */
  function ResultsOf(data: Option<Json>): (r: ResultsField)
    ensures r.NoResults? <==> data.None? || !data.value.JObject? || "results" !in data.value.fields
    ensures r.Entries? <==> data.Some? && data.value.JObject? && "results" in data.value.fields &&
                            data.value.fields["results"].JArray?
    ensures r.Entries? ==> data.value.fields["results"] == JArray(r.items)
  {
    match data
    case Some(JObject(response)) =>
      if "results" in response then
        match response["results"]
        case JArray(items) => Entries(items)
        case _ => NotAnArray
      else NoResults
    case _ => NoResults
  }

  /** How an update ends: the table is reloaded, or the forced cast traps. */
  datatype Update = Reloaded | CastTrap

  /** The search screen's model: the list of tracks the table shows. */
  class SearchViewController {
    var searchResults: seq<Track>

    constructor ()
      ensures searchResults == []
    {
      searchResults := [];
    }

    /**
     * Refill `searchResults` from the response. The previous list is always
     * discarded; a trap leaves the list cleared.
     */
    method UpdateSearchResults(data: Option<Json>) returns (outcome: Update)
      modifies this
      ensures outcome == CastTrap <==> ResultsOf(data).NotAnArray?
      ensures searchResults == if ResultsOf(data).Entries? then ExtractTracks(ResultsOf(data).items) else []
    {
      searchResults := [];
      outcome := Reloaded;
      if data.Some? && data.value.JObject? {
        var response := data.value.fields;
        if "results" in response {
          var results := response["results"];
          if !results.JArray? {
            outcome := CastTrap;
            return;
          }
          var items := results.items;
          for i := 0 to |items|
            invariant searchResults == ExtractTracks(items[..i])
          {
            var entry := items[i];
            assert items[..i + 1][..i] == items[..i];
            if entry.JObject? && "previewUrl" in entry.fields && entry.fields["previewUrl"].JString? {
              var previewUrl := entry.fields["previewUrl"].s;
              var name := StringField(entry.fields, "trackName");
              var artist := StringField(entry.fields, "artistName");
              searchResults := searchResults + [Track(name, artist, Some(previewUrl))];
            }
          }
          assert items[..|items|] == items;
        }
      }
    }
  }
}
