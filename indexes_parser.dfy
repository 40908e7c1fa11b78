/**
 * IndexesParser.parse as the loop it is: Artist objects whose id is
 * rewritten in place, a name-to-Artist map that aliases the artist list,
 * and lists that grow by appending. Its contract ties every result and side
 * effect to IndexesModel.Run.
 */
module IndexesParser {
  import opened Wrappers
  import opened IndexesModel

  /** The domain Artist: the parser sets all three fields and later rewrites id. */
  class Artist {
    var id: string
    var name: string
    var index: string

    constructor (id: string, name: string, index: string)
      ensures this.id == id && this.name == name && this.index == index
    {
      this.id := id;
      this.name := name;
      this.index := index;
    }

    function Record(): ArtistRecord
      reads this
    {
      ArtistRecord(id, name, index)
    }
  }

  /** The objects hold, position by position, the given field values. */
  ghost predicate Denotes(objs: seq<Artist>, recs: seq<ArtistRecord>)
    reads objs
  {
    |objs| == |recs| && forall j :: 0 <= j < |objs| ==> objs[j].Record() == recs[j]
  }

  /** The Indexes object handed back to the caller. */
  datatype Indexes<E> = Indexes(shortcuts: seq<Artist>, artists: seq<Artist>, entries: seq<E>)

  /** A thrown exception, the null return, or an Indexes. */
  datatype ParseResult<E> = Failure(error: ParseError) | Unchanged | Success(indexes: Indexes<E>)

  /** The local variables of the parse loop. */
  datatype ScanState<E> = ScanState(
    artists: seq<Artist>,
    shortcuts: seq<Artist>,
    entries: seq<E>,
    index: string,
    ignoredArticles: Option<string>,
    changed: bool,
    artistList: map<string, Artist>,
    progress: seq<nat>)

  /**
   * The locals hold the values `acc` describes; the map finds each artist
   * object by its name; no artist object is also a shortcut, and no shortcut
   * object occurs twice.
   */
  ghost predicate Mirrors<E>(l: ScanState<E>, acc: Acc<E>)
    reads l.artists, l.shortcuts
  {
    && l.index == acc.index
    && l.ignoredArticles == acc.ignoredArticles
    && l.changed == acc.changed
    && l.entries == acc.entries
    && l.progress == acc.progress
    && Denotes(l.artists, acc.artists)
    && Denotes(l.shortcuts, acc.shortcuts)
    && DistinctNames(acc.artists)
    && Indexed(l.artists, l.artistList, acc.artists)
    && Apart(l.artists, l.shortcuts)
    && Distinct(l.shortcuts)
  }

  /** The map relates each record's name to the object at the same position. */
  ghost predicate Indexed(artists: seq<Artist>, artistList: map<string, Artist>, recs: seq<ArtistRecord>)
  {
    && |artists| == |recs|
    && artistList.Keys == NameSet(recs)
    && forall j :: 0 <= j < |recs| ==> recs[j].name in artistList && artistList[recs[j].name] == artists[j]
  }

  /** No object occurs twice in the list. */
  ghost predicate Distinct(objs: seq<Artist>)
  {
    forall j, k :: 0 <= j < k < |objs| ==> objs[j] != objs[k]
  }

  /** Objects holding records with distinct names are distinct objects. */
  lemma DistinctObjects(objs: seq<Artist>, recs: seq<ArtistRecord>)
    requires Denotes(objs, recs) && DistinctNames(recs)
    ensures Distinct(objs)
  {
    forall j, k | 0 <= j < k < |objs| ensures objs[j] != objs[k] {
      assert objs[j].Record() == recs[j] && objs[k].Record() == recs[k];
    }
  }

  /** No object of the first list is also in the second. */
  ghost predicate Apart(artists: seq<Artist>, shortcuts: seq<Artist>)
  {
    forall j, k :: 0 <= j < |artists| && 0 <= k < |shortcuts| ==> artists[j] != shortcuts[k]
  }

  /**
   * The <artist> case: a name already in the map has the new id appended to
   * the existing object's id; otherwise the new object is added to the map
   * and to the list. The shortcut objects are passed only to show that they
   * are left alone.
   */
  method SightArtist(artists: seq<Artist>, artistList: map<string, Artist>, id: string, name: string,
                     index: string, ghost recs: seq<ArtistRecord>,
                     ghost shortcuts: seq<Artist>, ghost shortcutRecs: seq<ArtistRecord>)
    returns (artists': seq<Artist>, artistList': map<string, Artist>)
    requires Denotes(artists, recs) && DistinctNames(recs) && Indexed(artists, artistList, recs)
    requires Denotes(shortcuts, shortcutRecs) && Apart(artists, shortcuts)
    modifies artists
    ensures Denotes(artists', Merge(recs, id, name, index))
    ensures DistinctNames(Merge(recs, id, name, index))
    ensures Indexed(artists', artistList', Merge(recs, id, name, index))
    ensures Denotes(shortcuts, shortcutRecs) && Apart(artists', shortcuts)
    ensures forall j :: 0 <= j < |artists'| ==> (j < |artists| && artists'[j] == artists[j]) || fresh(artists'[j])
  {
    ghost var merged := Merge(recs, id, name, index);
    var artist := new Artist(id, name, index);
    if name in artistList {
      var original := artistList[name];
      ExtendId(artists, artistList, original, artist.id, name, index, recs, shortcuts, shortcutRecs);
      artists', artistList' := artists, artistList;
    } else {
      artists', artistList' := AppendArtist(artists, artistList, artist, recs, shortcuts);
      assert forall j :: 0 <= j < |artists| ==> artists'[j] == artists[j];
      assert fresh(artists'[|artists|]);
    }
  }

  /** `original.setId(original.getId() + ";" + artist.getId())` for the artist already named `name`. */
  method ExtendId(artists: seq<Artist>, ghost artistList: map<string, Artist>, original: Artist,
                  id: string, name: string, index: string, ghost recs: seq<ArtistRecord>,
                  ghost shortcuts: seq<Artist>, ghost shortcutRecs: seq<ArtistRecord>)
    requires Denotes(artists, recs) && DistinctNames(recs) && Indexed(artists, artistList, recs)
    requires name in artistList && original == artistList[name]
    requires Denotes(shortcuts, shortcutRecs) && Apart(artists, shortcuts)
    modifies original
    ensures Denotes(artists, Merge(recs, id, name, index))
    ensures Indexed(artists, artistList, Merge(recs, id, name, index))
    ensures Denotes(shortcuts, shortcutRecs)
  {
    ghost var merged := Merge(recs, id, name, index);
    ghost var p := Position(recs, name).value;
    assert original == artists[p];
    assert forall j :: 0 <= j < |recs| ==> merged[j].name == recs[j].name;
    assert NameSet(merged) == NameSet(recs);
    forall j | 0 <= j < |artists| && j != p ensures artists[j] != original {
      if j < p { assert recs[j].name != recs[p].name; } else { assert recs[p].name != recs[j].name; }
      assert artists[j].Record() == recs[j];
    }
    forall k | 0 <= k < |shortcuts| ensures shortcuts[k] != original {
      assert artists[p] != shortcuts[k];
    }
    original.id := original.id + IdSeparator + id;
    forall j | 0 <= j < |artists| ensures artists[j].Record() == merged[j] {
      if j != p {
        assert artists[j].Record() == old(artists[j].Record());
      }
    }
    forall k | 0 <= k < |shortcuts| ensures shortcuts[k].Record() == shortcutRecs[k] {
      assert shortcuts[k].Record() == old(shortcuts[k].Record());
    }
  }

  /** `artistList.put(name, artist)` and `artists.add(artist)` for a name not seen before. */
  method AppendArtist(artists: seq<Artist>, artistList: map<string, Artist>, artist: Artist,
                      ghost recs: seq<ArtistRecord>, ghost shortcuts: seq<Artist>)
    returns (artists': seq<Artist>, artistList': map<string, Artist>)
    requires Denotes(artists, recs) && Indexed(artists, artistList, recs)
    requires artist.name !in artistList && Apart(artists, shortcuts) && artist !in shortcuts
    ensures artists' == artists + [artist]
    ensures Denotes(artists', Merge(recs, artist.id, artist.name, artist.index))
    ensures Indexed(artists', artistList', Merge(recs, artist.id, artist.name, artist.index))
    ensures Apart(artists', shortcuts)
  {
    assert Merge(recs, artist.id, artist.name, artist.index) == recs + [artist.Record()];
    artists', artistList' := artists + [artist], artistList[artist.name := artist];
    forall j | 0 <= j < |artists|
      ensures artists'[j] == artists[j]
      ensures recs[j].name in artistList' && artistList'[recs[j].name] == artists'[j]
    {
      assert recs[j] in recs;
    }
    assert NameSet(recs + [artist.Record()]) == NameSet(recs) + {artist.name};
  }

  /** The <artist> case of the switch, followed by the progress report every tenth artist. */
  method ConsumeArtist<E>(l: ScanState<E>, id: string, name: string, ghost acc: Acc<E>) returns (l': ScanState<E>)
    requires Mirrors(l, acc)
    modifies l.artists
    ensures Mirrors(l', Step(acc, ArtistTag(id, name)))
    ensures forall j :: 0 <= j < |l'.artists| ==>
      (j < |l.artists| && l'.artists[j] == l.artists[j]) || fresh(l'.artists[j])
  {
    ghost var merged := Merge(acc.artists, id, name, l.index);
    var artists, artistList :=
      SightArtist(l.artists, l.artistList, id, name, l.index, acc.artists, l.shortcuts, acc.shortcuts);
    var progress := l.progress;
    if |artists| % ProgressInterval == 0 {
      progress := progress + [|artists|];
    }
    assert |artists| == |merged|;
    StepFields(acc, ArtistTag(id, name));
    l' := l.(artists := artists, artistList := artistList, progress := progress);
  }

  /** The <shortcut> case: a new Artist with the index "*". */
  method ConsumeShortcut<E>(l: ScanState<E>, id: string, name: string, ghost acc: Acc<E>) returns (l': ScanState<E>)
    requires Mirrors(l, acc)
    ensures Mirrors(l', Step(acc, ShortcutTag(id, name)))
    ensures l'.artists == l.artists
  {
    var shortcut := new Artist(id, name, ShortcutIndex);
    l' := l.(shortcuts := l.shortcuts + [shortcut]);
  }

  /** One turn of the loop's tag switch; an <error> element is handled by the loop itself. */
  method Consume<E>(l: ScanState<E>, e: Event<E>, ghost acc: Acc<E>) returns (l': ScanState<E>)
    requires Mirrors(l, acc)
    modifies l.artists
    ensures Mirrors(l', Step(acc, e))
    ensures forall j :: 0 <= j < |l'.artists| ==>
      (j < |l.artists| && l'.artists[j] == l.artists[j]) || fresh(l'.artists[j])
  {
    match e {
      case ContainerTag(ignored) =>
        l' := l.(changed := true, ignoredArticles := ignored);
      case IndexTag(header) =>
        l' := l.(index := header);
      case ArtistTag(id, name) =>
        l' := ConsumeArtist(l, id, name, acc);
      case ShortcutTag(id, name) =>
        l' := ConsumeShortcut(l, id, name, acc);
      case ChildTag(entry) =>
        l' := l.(entries := l.entries + [entry]);
      case ErrorTag(_, _) =>
        l' := l;  // not reached from Parse, which returns at an <error>
      case OtherEvent =>
        l' := l;
    }
  }

  /**
   * Consumes the start-tag events up to the end of the document.
   * `validateOk` is the verdict of validate(); the preference write and the
   * progress reports are returned rather than performed.
   */
  method Parse<E>(events: seq<Event<E>>, validateOk: bool)
    returns (result: ParseResult<E>, preference: Option<string>, progress: seq<nat>)
    ensures preference == Run(events, validateOk).preference
    ensures progress == Run(events, validateOk).progress
    ensures Run(events, validateOk).outcome.Failed? ==>
      result == Failure(Run(events, validateOk).outcome.error)
    ensures Run(events, validateOk).outcome.NoChange? ==> result == Unchanged
    ensures Run(events, validateOk).outcome.Parsed? ==>
      var expected := Run(events, validateOk).outcome;
      result.Success? &&
      Denotes(result.indexes.shortcuts, expected.shortcuts) &&
      Denotes(result.indexes.artists, expected.artists) &&
      result.indexes.entries == expected.entries &&
      Distinct(result.indexes.artists) && Distinct(result.indexes.shortcuts) &&
      Apart(result.indexes.artists, result.indexes.shortcuts)
  {
    var l: ScanState<E> := ScanState([], [], [], DefaultIndex, None, false, map[], []);
    var i := 0;
    ghost var acc := Initial<E>();
    while i < |events|
      invariant i <= |events|
      invariant forall k :: 0 <= k < i ==> !events[k].ErrorTag?
      invariant acc == Accumulate(events[..i])
      invariant Mirrors(l, acc)
      invariant forall j :: 0 <= j < |l.artists| ==> fresh(l.artists[j])
    {
      // the "error" case of the switch: handleError() throws
      if events[i].ErrorTag? {
        FirstErrorAt(events, i);
        return Failure(StreamError(events[i].code, events[i].message)), None, l.progress;
      }
      assert forall k :: 0 <= k < i + 1 ==> !events[k].ErrorTag?;
      assert events[..i + 1] == events[..i] + [events[i]];
      AccumulateSnoc(events[..i], events[i]);
      l := Consume(l, events[i], acc);
      acc := Step(acc, events[i]);
      i := i + 1;
    }
    assert events[..i] == events;
    assert NoError(events);

    if !validateOk {
      return Failure(StructuralError), None, l.progress;
    }
    preference := l.ignoredArticles;
    if !l.changed {
      return Unchanged, preference, l.progress;
    }
    progress := l.progress + [|l.artists|];
    DistinctObjects(l.artists, acc.artists);
    result := Success(Indexes(l.shortcuts, l.artists, l.entries));
  }
}
