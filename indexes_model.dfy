/**
 * The artist-index parse of IndexesParser.parse, stated on values.
 *
 * The response is a sequence of start-tag events. `Accumulate` folds the
 * events into the parser's local state (artist list, shortcut list, entry
 * list, active index label, ignored articles, "changed" flag, progress
 * reports) exactly as the loop does, and `Run` assembles the outcome after
 * the end of the document. The second half of the module gives independent,
 * per-concern descriptions of that state directly in terms of the events
 * and proves the fold agrees with them.
 */
module IndexesModel {
  import opened Wrappers

  /** A start tag as the parser sees it; E is the decoded child entry. */
  datatype Event<E> =
    | ContainerTag(ignoredArticles: Option<string>)  // <indexes> or <artists>
    | IndexTag(name: string)                         // <index name="A">
    | ArtistTag(id: string, name: string)            // <artist id=".." name="..">
    | ShortcutTag(id: string, name: string)          // <shortcut id=".." name="..">
    | ChildTag(entry: E)                             // <child ..>, already decoded
    | ErrorTag(code: int, message: string)           // <error code=".." message="..">
    | OtherEvent                                     // any other tag, end tag or text

  /** The fields of an Artist: id, display name and index-header label. */
  datatype ArtistRecord = ArtistRecord(id: string, name: string, index: string)

  datatype ParseError =
    | StreamError(code: int, message: string)  // an <error> element in the stream
    | StructuralError                          // validate() rejected the document

  /** What parse returns: it throws, returns null, or returns an Indexes. */
  datatype Outcome<E> =
    | Failed(error: ParseError)
    | NoChange
    | Parsed(shortcuts: seq<ArtistRecord>, artists: seq<ArtistRecord>, entries: seq<E>)

  /**
   * The outcome with the observable side effects: the value written to the
   * ignored-articles preference (None: no write) and the artist counts sent
   * to the progress listener, in order.
   */
  datatype Report<E> = Report(outcome: Outcome<E>, preference: Option<string>, progress: seq<nat>)

  /** The local variables of the parse loop. */
  datatype Acc<E> = Acc(
    artists: seq<ArtistRecord>,
    shortcuts: seq<ArtistRecord>,
    entries: seq<E>,
    index: string,
    ignoredArticles: Option<string>,
    changed: bool,
    progress: seq<nat>)

  const DefaultIndex: string := "#"
  const ShortcutIndex: string := "*"
  const IdSeparator: string := ";"
  const ProgressInterval: nat := 10

  function Init<T>(s: seq<T>): seq<T>
    requires s != []
  {
    s[..|s| - 1]
  }

  function Last<T>(s: seq<T>): T
    requires s != []
  {
    s[|s| - 1]
  }

  // ---------------------------------------------------------------------
  // Artist list and the name lookup
  // ---------------------------------------------------------------------

  function NameSet(rs: seq<ArtistRecord>): set<string>
  {
    set r | r in rs :: r.name
  }

  predicate DistinctNames(rs: seq<ArtistRecord>)
  {
    forall i, j :: 0 <= i < j < |rs| ==> rs[i].name != rs[j].name
  }

  /** Where the artist with this display name sits in the list, if anywhere. */
  function Position(rs: seq<ArtistRecord>, name: string): (r: Option<nat>)
    ensures r.Some? ==> r.value < |rs| && rs[r.value].name == name
    ensures r.Some? ==> forall q :: 0 <= q < r.value ==> rs[q].name != name
    ensures r.None? <==> name !in NameSet(rs)
  {
    if rs == [] then None
    else if rs[0].name == name then Some(0)
    else
      assert NameSet(rs) == {rs[0].name} + NameSet(rs[1..]) by {
        assert forall r :: r in rs <==> r == rs[0] || r in rs[1..];
      }
      match Position(rs[1..], name)
      case Some(q) => Some(q + 1)
      case None => None
  }

  lemma UpdateKeepsNames(rs: seq<ArtistRecord>, p: nat, r: ArtistRecord)
    requires p < |rs| && r.name == rs[p].name
    ensures NameSet(rs[p := r]) == NameSet(rs)
  {
    var rs' := rs[p := r];
    forall n | n in NameSet(rs) ensures n in NameSet(rs') {
      var j :| 0 <= j < |rs| && rs[j].name == n;
      assert rs'[j].name == n;
    }
    forall n | n in NameSet(rs') ensures n in NameSet(rs) {
      var j :| 0 <= j < |rs'| && rs'[j].name == n;
      assert rs[j].name == n;
    }
  }

  lemma AppendNames(rs: seq<ArtistRecord>, r: ArtistRecord)
    ensures NameSet(rs + [r]) == NameSet(rs) + {r.name}
  {
    assert forall x :: x in rs + [r] <==> x in rs || x == r;
  }

  /**
   * One <artist> element: a name already in the list gets the new id
   * appended after a ";", otherwise a new artist with the active label is
   * appended.
   */
  function Merge(rs: seq<ArtistRecord>, id: string, name: string, index: string): (rs': seq<ArtistRecord>)
    ensures NameSet(rs') == NameSet(rs) + {name}
    ensures DistinctNames(rs) ==> DistinctNames(rs')
    ensures name !in NameSet(rs) ==> rs' == rs + [ArtistRecord(id, name, index)]
    ensures name in NameSet(rs) ==> |rs'| == |rs|
    ensures DistinctNames(rs) ==>
      forall q :: 0 <= q < |rs| ==>
        rs'[q] == if rs[q].name == name then rs[q].(id := rs[q].id + IdSeparator + id) else rs[q]
  {
    match Position(rs, name)
    case Some(p) =>
      var r := rs[p].(id := rs[p].id + IdSeparator + id);
      UpdateKeepsNames(rs, p, r);
      rs[p := r]
    case None =>
      AppendNames(rs, ArtistRecord(id, name, index));
      rs + [ArtistRecord(id, name, index)]
  }

  // ---------------------------------------------------------------------
  // The loop
  // ---------------------------------------------------------------------

  function Initial<E>(): Acc<E>
  {
    Acc([], [], [], DefaultIndex, None, false, [])
  }

  /**
   * One turn of the loop. An <error> element never reaches this: the loop
   * stops before it (see Run), so here it is treated like OtherEvent.
   */
  function Step<E>(acc: Acc<E>, e: Event<E>): Acc<E>
  {
    match e
    case ContainerTag(ignored) => acc.(changed := true, ignoredArticles := ignored)
    case IndexTag(header) => acc.(index := header)
    case ArtistTag(id, name) =>
      var artists := Merge(acc.artists, id, name, acc.index);
      acc.(artists := artists,
           progress := if |artists| % ProgressInterval == 0 then acc.progress + [|artists|] else acc.progress)
    case ShortcutTag(id, name) => acc.(shortcuts := acc.shortcuts + [ArtistRecord(id, name, ShortcutIndex)])
    case ChildTag(entry) => acc.(entries := acc.entries + [entry])
    case ErrorTag(_, _) => acc
    case OtherEvent => acc
  }

  /**
   * The loop's locals after these events. The parse folds only the events
   * before the first <error> (see Run), so this describes the source on
   * error-free prefixes; on a stream containing an <error> it is the model's
   * own extension, where the <error> changes nothing.
   */
  function Accumulate<E>(evs: seq<Event<E>>): Acc<E>
  {
    if evs == [] then Initial() else Step(Accumulate(Init(evs)), Last(evs))
  }

  predicate NoError<E>(evs: seq<Event<E>>)
  {
    forall k :: 0 <= k < |evs| ==> !evs[k].ErrorTag?
  }

  /** The position of the first <error> element, where the parse aborts. */
  function FirstError<E>(evs: seq<Event<E>>): (r: Option<nat>)
    ensures r.Some? ==> r.value < |evs| && evs[r.value].ErrorTag?
    ensures r.Some? ==> forall q :: 0 <= q < r.value ==> !evs[q].ErrorTag?
    ensures r.None? <==> NoError(evs)
  {
    if evs == [] then None
    else if evs[0].ErrorTag? then Some(0)
    else match FirstError(evs[1..])
      case Some(k) =>
        assert forall q :: 1 <= q < k + 1 ==> evs[q] == evs[1..][q - 1];
        Some(k + 1)
      case None =>
        assert forall j :: 1 <= j < |evs| ==> evs[j] == evs[1..][j - 1];
        None
  }

  /**
   * The whole parse: the loop up to the first <error> or to the end of the
   * document, then validate(), the preference write, the null return when no
   * container was seen, and the final progress report.
   */
  function Run<E>(evs: seq<Event<E>>, validateOk: bool): Report<E>
  {
    match FirstError(evs)
    case Some(k) =>
      Report(Failed(StreamError(evs[k].code, evs[k].message)), None, Accumulate(evs[..k]).progress)
    case None =>
      var acc := Accumulate(evs);
      if !validateOk then Report(Failed(StructuralError), None, acc.progress)
      else if !acc.changed then Report(NoChange, acc.ignoredArticles, acc.progress)
      else Report(Parsed(acc.shortcuts, acc.artists, acc.entries), acc.ignoredArticles,
                  acc.progress + [|acc.artists|])
  }

  // ---------------------------------------------------------------------
  // The same state described directly in terms of the events
  // ---------------------------------------------------------------------

  /** The index label in force after these events: the last <index> name, else "#". */
  function Label<E>(evs: seq<Event<E>>): string
  {
    if evs == [] then DefaultIndex
    else if Last(evs).IndexTag? then Last(evs).name
    else Label(Init(evs))
  }

  /** The ids of the <artist> elements with this display name, in stream order. */
  function IdsFor<E>(evs: seq<Event<E>>, name: string): seq<string>
  {
    if evs == [] then []
    else IdsFor(Init(evs), name) + (if Last(evs).ArtistTag? && Last(evs).name == name then [Last(evs).id] else [])
  }

  /** The display names carried by <artist> elements. */
  function SightedNames<E>(evs: seq<Event<E>>): set<string>
  {
    if evs == [] then {}
    else SightedNames(Init(evs)) + (if Last(evs).ArtistTag? then {Last(evs).name} else {})
  }

  /** The position of the first <artist> element with this display name. */
  function FirstSeen<E>(evs: seq<Event<E>>, name: string): (k: nat)
    requires IdsFor(evs, name) != []
    ensures k < |evs| && evs[k].ArtistTag? && evs[k].name == name
  {
    if IdsFor(Init(evs), name) != [] then FirstSeen(Init(evs), name) else |evs| - 1
  }

  /** No <artist> element before that position carries the name. */
  lemma {:induction false} FirstSeenIsFirst<E>(evs: seq<Event<E>>, name: string)
    requires IdsFor(evs, name) != []
    ensures IdsFor(evs[..FirstSeen(evs, name)], name) == []
  {
    var k := FirstSeen(evs, name);
    if IdsFor(Init(evs), name) != [] {
      FirstSeenIsFirst(Init(evs), name);
      assert evs[..k] == Init(evs)[..k];
    } else {
      assert evs[..k] == Init(evs);
    }
  }

  /** Ids joined left to right with ";". */
  function JoinIds(ids: seq<string>): string
    requires ids != []
  {
    if |ids| == 1 then ids[0] else JoinIds(Init(ids)) + IdSeparator + Last(ids)
  }

  /** One "*"-labelled record per <shortcut> element, in stream order. */
  function ShortcutsOf<E>(evs: seq<Event<E>>): seq<ArtistRecord>
  {
    if evs == [] then []
    else
      ShortcutsOf(Init(evs)) +
      (if Last(evs).ShortcutTag? then [ArtistRecord(Last(evs).id, Last(evs).name, ShortcutIndex)] else [])
  }

  /** The entry of every <child> element, in stream order. */
  function EntriesOf<E>(evs: seq<Event<E>>): seq<E>
  {
    if evs == [] then [] else EntriesOf(Init(evs)) + (if Last(evs).ChildTag? then [Last(evs).entry] else [])
  }

  predicate SeenContainer<E>(evs: seq<Event<E>>)
  {
    exists k :: 0 <= k < |evs| && evs[k].ContainerTag?
  }

  /** The ignoredArticles attribute of the last container element (None if absent or no container). */
  function LastIgnored<E>(evs: seq<Event<E>>): Option<string>
  {
    if evs == [] then None
    else if Last(evs).ContainerTag? then Last(evs).ignoredArticles
    else LastIgnored(Init(evs))
  }

  /**
   * A report after every <artist> element at which the number of distinct
   * names seen so far is a multiple of ten, carrying that number.
   */
  function ProgressOf<E>(evs: seq<Event<E>>): seq<nat>
  {
    if evs == [] then []
    else
      ProgressOf(Init(evs)) +
      (if Last(evs).ArtistTag? && |SightedNames(evs)| % ProgressInterval == 0 then [|SightedNames(evs)|] else [])
  }

  // ---------------------------------------------------------------------
  // The fold agrees with the descriptions
  // ---------------------------------------------------------------------

  lemma {:induction false} AccumulateIndex<E>(evs: seq<Event<E>>)
    ensures Accumulate(evs).index == Label(evs)
  {
    if evs != [] {
      AccumulateIndex(Init(evs));
    }
  }

  lemma {:induction false} SightedIffIds<E>(evs: seq<Event<E>>, name: string)
    ensures name in SightedNames(evs) <==> IdsFor(evs, name) != []
  {
    if evs != [] {
      SightedIffIds(Init(evs), name);
    }
  }

  /** The artist names are pairwise distinct and are exactly the names sighted. */
  lemma {:induction false} AccumulateNames<E>(evs: seq<Event<E>>)
    ensures DistinctNames(Accumulate(evs).artists)
    ensures NameSet(Accumulate(evs).artists) == SightedNames(evs)
  {
    if evs != [] {
      AccumulateNames(Init(evs));
    }
  }

  /** Each artist's id is the ids of all its sightings, joined with ";" in stream order. */
  lemma {:induction false} AccumulateIds<E>(evs: seq<Event<E>>)
    ensures forall i :: 0 <= i < |Accumulate(evs).artists| ==>
      var a := Accumulate(evs).artists[i];
      IdsFor(evs, a.name) != [] && a.id == JoinIds(IdsFor(evs, a.name))
  {
    if evs != [] {
      var p, e := Init(evs), Last(evs);
      var before, after := Accumulate(p).artists, Accumulate(evs).artists;
      AccumulateIds(p);
      AccumulateNames(p);
      assert Accumulate(evs) == Step(Accumulate(p), e);
      if e.ArtistTag? {
        SightedIffIds(p, e.name);
        assert after == Merge(before, e.id, e.name, Accumulate(p).index);
        forall i | 0 <= i < |after|
          ensures IdsFor(evs, after[i].name) != [] && after[i].id == JoinIds(IdsFor(evs, after[i].name))
        {
          var n := after[i].name;
          if i < |before| {
            assert n == before[i].name;
            if n == e.name {
              var ids := IdsFor(evs, n);
              assert ids == IdsFor(p, n) + [e.id];
              assert Init(ids) == IdsFor(p, n);
              assert after[i].id == before[i].id + IdSeparator + e.id;
            } else {
              assert IdsFor(evs, n) == IdsFor(p, n);
              assert after[i] == before[i];
            }
          } else {
            assert after == before + [ArtistRecord(e.id, e.name, Accumulate(p).index)];
            assert IdsFor(p, e.name) == [];
            assert IdsFor(evs, n) == [e.id];
          }
        }
      } else {
        assert after == before;
        forall n ensures IdsFor(evs, n) == IdsFor(p, n) { }
      }
    }
  }

  /** A name sighted before the last event keeps its first sighting. */
  lemma FirstSeenExtend<E>(evs: seq<Event<E>>, name: string)
    requires evs != [] && IdsFor(Init(evs), name) != []
    ensures IdsFor(evs, name) != []
    ensures FirstSeen(evs, name) == FirstSeen(Init(evs), name)
    ensures evs[..FirstSeen(evs, name)] == Init(evs)[..FirstSeen(evs, name)]
  {
  }

  /** Each artist carries the index label that was in force at its first sighting. */
  lemma {:induction false} AccumulateFirstLabel<E>(evs: seq<Event<E>>)
    ensures forall i :: 0 <= i < |Accumulate(evs).artists| ==>
      var a := Accumulate(evs).artists[i];
      IdsFor(evs, a.name) != [] && a.index == Label(evs[..FirstSeen(evs, a.name)])
  {
    if evs != [] {
      var p, e := Init(evs), Last(evs);
      var before, after := Accumulate(p).artists, Accumulate(evs).artists;
      AccumulateFirstLabel(p);
      AccumulateNames(p);
      assert after == if e.ArtistTag? then Merge(before, e.id, e.name, Accumulate(p).index) else before;
      if e.ArtistTag? {
        AccumulateIndex(p);
        SightedIffIds(p, e.name);
        forall i | 0 <= i < |after|
          ensures IdsFor(evs, after[i].name) != [] && after[i].index == Label(evs[..FirstSeen(evs, after[i].name)])
        {
          if i < |before| {
            assert after[i].name == before[i].name && after[i].index == before[i].index;
            FirstSeenExtend(evs, before[i].name);
          } else {
            assert after == before + [ArtistRecord(e.id, e.name, Label(p))];
            assert IdsFor(p, e.name) == [];
            assert FirstSeen(evs, e.name) == |p|;
            assert evs[..|p|] == p;
          }
        }
      } else {
        forall i | 0 <= i < |before|
          ensures IdsFor(evs, before[i].name) != [] && before[i].index == Label(evs[..FirstSeen(evs, before[i].name)])
        {
          FirstSeenExtend(evs, before[i].name);
        }
      }
    }
  }

  /** A name not listed before the last event is first seen at that event. */
  lemma FirstSeenNew<E>(evs: seq<Event<E>>)
    requires evs != [] && Last(evs).ArtistTag?
    requires Last(evs).name !in NameSet(Accumulate(Init(evs)).artists)
    ensures IdsFor(evs, Last(evs).name) != [] && FirstSeen(evs, Last(evs).name) == |Init(evs)|
  {
    var p, e := Init(evs), Last(evs);
    AccumulateNames(p);
    SightedIffIds(p, e.name);
    assert IdsFor(p, e.name) == [];
  }

  /** Every record's name was carried by some <artist> element. */
  ghost predicate AllSighted<E>(evs: seq<Event<E>>, rs: seq<ArtistRecord>)
  {
    forall i :: 0 <= i < |rs| ==> IdsFor(evs, rs[i].name) != []
  }

  /** Each record's name was sighted, and the records come in first-sighting order. */
  ghost predicate ListedInOrder<E>(evs: seq<Event<E>>, rs: seq<ArtistRecord>)
  {
    AllSighted(evs, rs) &&
    forall i, j :: 0 <= i < j < |rs| ==> FirstSeen(evs, rs[i].name) < FirstSeen(evs, rs[j].name)
  }

  /** Artists are listed in first-sighting order. */
  lemma {:induction false} AccumulateOrder<E>(evs: seq<Event<E>>)
    ensures ListedInOrder(evs, Accumulate(evs).artists)
  {
    if evs != [] {
      var p, e := Init(evs), Last(evs);
      AccumulateOrder(p);
      assert Accumulate(evs) == Step(Accumulate(p), e);
      if e.ArtistTag? && e.name !in NameSet(Accumulate(p).artists) {
        OrderAfterNewName(evs);
      } else {
        OrderAfterOtherEvent(evs);
      }
    } else {
      assert Accumulate(evs).artists == [];
    }
  }

  /** A first sighting appends a name seen later than every listed one. */
  lemma OrderAfterNewName<E>(evs: seq<Event<E>>)
    requires evs != [] && Last(evs).ArtistTag?
    requires Last(evs).name !in NameSet(Accumulate(Init(evs)).artists)
    requires ListedInOrder(Init(evs), Accumulate(Init(evs)).artists)
    ensures ListedInOrder(evs, Accumulate(Init(evs)).artists + [ArtistRecord(Last(evs).id, Last(evs).name, Accumulate(Init(evs)).index)])
  {
    var p, e := Init(evs), Last(evs);
    var before := Accumulate(p).artists;
    var after := before + [ArtistRecord(e.id, e.name, Accumulate(p).index)];
    OrderExtends(evs, before);
    FirstSeenNew(evs);
    assert AllSighted(evs, after) by {
      forall i | 0 <= i < |after| ensures IdsFor(evs, after[i].name) != [] {
        if i < |before| { assert after[i] == before[i]; }
      }
    }
    forall i, j | 0 <= i < j < |after|
      ensures FirstSeen(evs, after[i].name) < FirstSeen(evs, after[j].name)
    {
      assert after[i] == before[i];
      if j < |before| {
        assert after[j] == before[j];
      } else {
        assert after[j].name == e.name;
      }
    }
  }

  /** Any other event keeps the listed names, and so their order. */
  lemma OrderAfterOtherEvent<E>(evs: seq<Event<E>>)
    requires evs != []
    requires ListedInOrder(Init(evs), Accumulate(Init(evs)).artists)
    requires !(Last(evs).ArtistTag? && Last(evs).name !in NameSet(Accumulate(Init(evs)).artists))
    ensures ListedInOrder(evs, Accumulate(evs).artists)
  {
    var p, e := Init(evs), Last(evs);
    var before, after := Accumulate(p).artists, Accumulate(evs).artists;
    OrderExtends(evs, before);
    AccumulateNames(p);
    StepFields(Accumulate(p), e);
    if e.ArtistTag? {
      assert after == Merge(before, e.id, e.name, Accumulate(p).index);
      assert |after| == |before| && forall i :: 0 <= i < |before| ==> after[i].name == before[i].name;
    }
    OrderByNames(evs, before, after);
  }

  /** One more event at the end keeps every earlier first sighting. */
  lemma OrderExtends<E>(evs: seq<Event<E>>, rs: seq<ArtistRecord>)
    requires evs != [] && ListedInOrder(Init(evs), rs)
    ensures ListedInOrder(evs, rs)
  {
    forall i | 0 <= i < |rs|
      ensures IdsFor(evs, rs[i].name) != [] && FirstSeen(evs, rs[i].name) == FirstSeen(Init(evs), rs[i].name)
    {
      FirstSeenExtend(evs, rs[i].name);
    }
  }

  /** Whether records are listed in order depends on their names alone. */
  lemma OrderByNames<E>(evs: seq<Event<E>>, rs: seq<ArtistRecord>, rs': seq<ArtistRecord>)
    requires |rs'| == |rs| && forall i :: 0 <= i < |rs| ==> rs'[i].name == rs[i].name
    requires ListedInOrder(evs, rs)
    ensures ListedInOrder(evs, rs')
  {
    assert forall i :: 0 <= i < |rs| ==> IdsFor(evs, rs'[i].name) == IdsFor(evs, rs[i].name);
    assert forall i :: 0 <= i < |rs| ==> FirstSeen(evs, rs'[i].name) == FirstSeen(evs, rs[i].name);
  }

  lemma {:induction false} AccumulateShortcutsEntries<E>(evs: seq<Event<E>>)
    ensures Accumulate(evs).shortcuts == ShortcutsOf(evs)
    ensures Accumulate(evs).entries == EntriesOf(evs)
  {
    if evs != [] {
      AccumulateShortcutsEntries(Init(evs));
    }
  }

  /** The flag records whether a container was seen; ignoredArticles comes from the last container. */
  lemma {:induction false} AccumulateContainer<E>(evs: seq<Event<E>>)
    ensures Accumulate(evs).changed <==> SeenContainer(evs)
    ensures Accumulate(evs).ignoredArticles == LastIgnored(evs)
    ensures LastIgnored(evs).Some? ==> SeenContainer(evs)
  {
    if evs != [] {
      var p, e := Init(evs), Last(evs);
      AccumulateContainer(p);
      var a := Accumulate(p);
      assert Accumulate(evs) == Step(a, e);
      if e.ContainerTag? {
        assert evs[|p|].ContainerTag?;
      } else {
        assert Step(a, e).changed == a.changed && Step(a, e).ignoredArticles == a.ignoredArticles;
        if SeenContainer(evs) {
          var k :| 0 <= k < |evs| && evs[k].ContainerTag?;
          assert k < |p| && p[k] == evs[k];
        }
        if SeenContainer(p) {
          var k :| 0 <= k < |p| && p[k].ContainerTag?;
          assert evs[k] == p[k];
        }
      }
    }
  }

  lemma {:induction false} DistinctCount(rs: seq<ArtistRecord>)
    requires DistinctNames(rs)
    ensures |NameSet(rs)| == |rs|
  {
    if rs != [] {
      var p := Init(rs);
      DistinctCount(p);
      assert rs == p + [Last(rs)];
      AppendNames(p, Last(rs));
      assert Last(rs).name !in NameSet(p);
    }
  }

  /** The size of the artist list is the number of distinct names sighted. */
  lemma AccumulateCount<E>(evs: seq<Event<E>>)
    ensures |Accumulate(evs).artists| == |SightedNames(evs)|
  {
    AccumulateNames(evs);
    DistinctCount(Accumulate(evs).artists);
  }

  lemma {:induction false} AccumulateProgress<E>(evs: seq<Event<E>>)
    ensures Accumulate(evs).progress == ProgressOf(evs)
  {
    if evs != [] {
      var p, e := Init(evs), Last(evs);
      AccumulateProgress(p);
      assert Accumulate(evs) == Step(Accumulate(p), e);
      StepFields(Accumulate(p), e);
      if e.ArtistTag? {
        AccumulateCount(evs);
      }
    }
  }

  /**
   * A repeat sighting does not grow the list, but still reports progress
   * when the list size is a multiple of ten.
   */
  lemma RepeatSightingReports<E>(evs: seq<Event<E>>, id: string, name: string)
    requires name in SightedNames(evs)
    requires |SightedNames(evs)| % ProgressInterval == 0
    ensures var before, after := Accumulate(evs), Accumulate(evs + [ArtistTag(id, name)]);
      |after.artists| == |before.artists| &&
      after.progress == before.progress + [|before.artists|]
  {
    AccumulateNames(evs);
    AccumulateCount(evs);
    assert Init(evs + [ArtistTag(id, name)]) == evs;
  }

  // ---------------------------------------------------------------------
  // Properties of the whole parse
  // ---------------------------------------------------------------------

  /**
   * An <error> element aborts the parse: whatever follows it and whatever
   * validate() would say, the result is that error, nothing is written to
   * the preferences, and only the progress already reported stands.
   */
  lemma ErrorAborts<E>(prefix: seq<Event<E>>, code: int, message: string, rest: seq<Event<E>>, validateOk: bool)
    requires NoError(prefix)
    ensures Run(prefix + [ErrorTag(code, message)] + rest, validateOk)
         == Report(Failed(StreamError(code, message)), None, Accumulate(prefix).progress)
  {
    var evs := prefix + [ErrorTag(code, message)] + rest;
    assert forall q :: 0 <= q < |prefix| ==> evs[q] == prefix[q];
    FirstErrorAt(evs, |prefix|);
    assert evs[..|prefix|] == prefix;
  }

  lemma FirstErrorAt<E>(evs: seq<Event<E>>, k: nat)
    requires k < |evs| && evs[k].ErrorTag?
    requires forall q :: 0 <= q < k ==> !evs[q].ErrorTag?
    ensures FirstError(evs) == Some(k)
  {
    assert !NoError(evs);
  }

  /** Without an aborting error, "no change" is returned exactly when no container was seen. */
  lemma NoChangeIffNoContainer<E>(evs: seq<Event<E>>)
    ensures Run(evs, true).outcome == NoChange <==> NoError(evs) && !SeenContainer(evs)
    ensures Run(evs, true).outcome == NoChange ==> Run(evs, true).preference == None
  {
    AccumulateContainer(evs);
  }

  /**
   * A complete, valid parse that saw a container returns exactly the
   * accumulated shortcuts, artists and entries, writes the last container's
   * ignoredArticles, and ends with a report of the artist count.
   */
  lemma ParsedResult<E>(evs: seq<Event<E>>)
    requires NoError(evs) && SeenContainer(evs)
    ensures Run(evs, true) == Report(Parsed(ShortcutsOf(evs), Accumulate(evs).artists, EntriesOf(evs)),
                                     LastIgnored(evs), ProgressOf(evs) + [|SightedNames(evs)|])
  {
    AccumulateContainer(evs);
    AccumulateShortcutsEntries(evs);
    AccumulateProgress(evs);
    AccumulateCount(evs);
  }

  /**
   * The preference is written only by a parse that reached the end of the
   * document and passed validate(), and only when the last container carried
   * ignoredArticles; such a parse always returns an Indexes.
   */
  lemma PreferenceWrite<E>(evs: seq<Event<E>>, validateOk: bool)
    ensures Run(evs, validateOk).preference == if NoError(evs) && validateOk then LastIgnored(evs) else None
    ensures Run(evs, validateOk).preference.Some? ==> Run(evs, validateOk).outcome.Parsed?
  {
    AccumulateContainer(evs);
  }

  lemma {:induction false} InertInAccumulate<E>(p: seq<Event<E>>, q: seq<Event<E>>)
    ensures Accumulate(p + [OtherEvent] + q) == Accumulate(p + q)
  {
    if q == [] {
      assert p + [OtherEvent] + q == p + [OtherEvent];
      assert Init(p + [OtherEvent]) == p;
      assert p + q == p;
    } else {
      InertInAccumulate(p, Init(q));
      assert Init(p + [OtherEvent] + q) == p + [OtherEvent] + Init(q);
      assert Init(p + q) == p + Init(q);
    }
  }

  lemma FirstErrorInsert<E>(p: seq<Event<E>>, q: seq<Event<E>>)
    ensures FirstError(p + [OtherEvent] + q) ==
      match FirstError(p + q)
      case Some(k) => Some(if k < |p| then k else k + 1)
      case None => None
  {
    var with, without := p + [OtherEvent] + q, p + q;
    assert forall j :: 0 <= j < |p| ==> with[j] == without[j];
    assert forall j :: |p| < j < |with| ==> with[j] == without[j - 1];
    match FirstError(without)
    case Some(k) =>
      if k < |p| {
        FirstErrorAt(with, k);
      } else {
        FirstErrorAt(with, k + 1);
      }
    case None =>
      assert NoError(with) by {
        forall j | 0 <= j < |with| ensures !with[j].ErrorTag? {
          if j > |p| { assert with[j] == without[j - 1]; }
        }
      }
  }

  /** An unrecognised element anywhere in the stream changes nothing. */
  lemma OtherEventIsInert<E>(p: seq<Event<E>>, q: seq<Event<E>>, validateOk: bool)
    ensures Run(p + [OtherEvent] + q, validateOk) == Run(p + q, validateOk)
  {
    var with, without := p + [OtherEvent] + q, p + q;
    FirstErrorInsert(p, q);
    match FirstError(without)
    case Some(k) =>
      InertBefore(p, q, k);
    case None =>
      InertInAccumulate(p, q);
  }

  /** The event at position k, and the fold of the events before it, once an inert event is inserted. */
  lemma InertBefore<E>(p: seq<Event<E>>, q: seq<Event<E>>, k: nat)
    requires k < |p + q|
    ensures var k' := if k < |p| then k else k + 1;
      k' < |p + [OtherEvent] + q| &&
      (p + [OtherEvent] + q)[k'] == (p + q)[k] &&
      Accumulate((p + [OtherEvent] + q)[..k']) == Accumulate((p + q)[..k])
  {
    var with, without := p + [OtherEvent] + q, p + q;
    if k < |p| {
      assert with[..k] == without[..k];
      assert with[k] == p[k];
    } else {
      assert with[..k + 1] == p + [OtherEvent] + q[..k - |p|];
      assert without[..k] == p + q[..k - |p|];
      InertInAccumulate(p, q[..k - |p|]);
      assert with[k + 1] == q[k - |p|] && without[k] == q[k - |p|];
    }
  }

  /** One step, field by field. */
  lemma StepFields<E>(acc: Acc<E>, e: Event<E>)
    ensures var next := Step(acc, e);
      && next.artists == (if e.ArtistTag? then Merge(acc.artists, e.id, e.name, acc.index) else acc.artists)
      && next.progress ==
           (if e.ArtistTag? && |next.artists| % ProgressInterval == 0 then acc.progress + [|next.artists|]
            else acc.progress)
      && next.index == (if e.IndexTag? then e.name else acc.index)
      && next.changed == (e.ContainerTag? || acc.changed)
      && next.ignoredArticles == (if e.ContainerTag? then e.ignoredArticles else acc.ignoredArticles)
      && next.shortcuts ==
           (if e.ShortcutTag? then acc.shortcuts + [ArtistRecord(e.id, e.name, ShortcutIndex)] else acc.shortcuts)
      && next.entries == (if e.ChildTag? then acc.entries + [e.entry] else acc.entries)
  {
  }

  lemma AccumulateSnoc<E>(p: seq<Event<E>>, e: Event<E>)
    ensures Accumulate(p + [e]) == Step(Accumulate(p), e)
  {
    assert Init(p + [e]) == p;
  }

  /**
   * The worked example: a container with an ignoredArticles attribute, an
   * index, the same name under two ids, then a shortcut. The two sightings
   * become one artist whose ids are joined, under the index label, and the
   * shortcut is kept apart with the label "*".
   */
  lemma MergeExample<E>(articles: string, header: string, id1: string, id2: string, name: string,
                        shortcutId: string, shortcutName: string)
    ensures Run<E>([ContainerTag(Some(articles)), IndexTag(header), ArtistTag(id1, name), ArtistTag(id2, name),
                    ShortcutTag(shortcutId, shortcutName)], true)
         == Report(Parsed([ArtistRecord(shortcutId, shortcutName, ShortcutIndex)],
                          [ArtistRecord(id1 + IdSeparator + id2, name, header)], []),
                   Some(articles), [1])
  {
    var evs: seq<Event<E>> := [ContainerTag(Some(articles)), IndexTag(header), ArtistTag(id1, name),
                               ArtistTag(id2, name), ShortcutTag(shortcutId, shortcutName)];
    ExampleFold<E>(articles, header, id1, id2, name, shortcutId, shortcutName);
    assert NoError(evs) by {
      forall k | 0 <= k < |evs| ensures !evs[k].ErrorTag? {
        if k < 2 { assert k == 0 || k == 1; } else { assert k == 2 || k == 3 || k == 4; }
      }
    }
  }

  /** The fold over the first three events of the worked example. */
  lemma ExampleFirstSighting<E>(articles: string, header: string, id1: string, name: string)
    ensures Accumulate<E>([ContainerTag(Some(articles)), IndexTag(header), ArtistTag(id1, name)])
         == Acc([ArtistRecord(id1, name, header)], [], [], header, Some(articles), true, [])
  {
    var e1: Event<E>, e2: Event<E>, e3: Event<E> := ContainerTag(Some(articles)), IndexTag(header), ArtistTag(id1, name);
    var a1: Acc<E> := Acc([], [], [], DefaultIndex, Some(articles), true, []);
    AccumulateSnoc([], e1);
    assert [] + [e1] == [e1];
    assert Accumulate([e1]) == a1;
    AccumulateSnoc([e1], e2);
    assert [e1] + [e2] == [e1, e2];
    assert Accumulate([e1, e2]) == a1.(index := header);
    AccumulateSnoc([e1, e2], e3);
    assert [e1, e2] + [e3] == [e1, e2, e3];
    assert Merge([], id1, name, header) == [ArtistRecord(id1, name, header)];
  }

  /** The fold over the whole worked example. */
  lemma ExampleFold<E>(articles: string, header: string, id1: string, id2: string, name: string,
                       shortcutId: string, shortcutName: string)
    ensures Accumulate<E>([ContainerTag(Some(articles)), IndexTag(header), ArtistTag(id1, name),
                           ArtistTag(id2, name), ShortcutTag(shortcutId, shortcutName)])
         == Acc([ArtistRecord(id1 + IdSeparator + id2, name, header)],
                [ArtistRecord(shortcutId, shortcutName, ShortcutIndex)], [], header, Some(articles), true, [])
  {
    var e1: Event<E>, e2: Event<E>, e3: Event<E>, e4: Event<E>, e5: Event<E> :=
      ContainerTag(Some(articles)), IndexTag(header), ArtistTag(id1, name), ArtistTag(id2, name),
      ShortcutTag(shortcutId, shortcutName);
    var first := ArtistRecord(id1, name, header);
    ExampleFirstSighting<E>(articles, header, id1, name);
    AccumulateSnoc([e1, e2, e3], e4);
    assert [e1, e2, e3] + [e4] == [e1, e2, e3, e4];
    assert first in [first];
    assert Merge([first], id2, name, header) == [first.(id := id1 + IdSeparator + id2)];
    AccumulateSnoc([e1, e2, e3, e4], e5);
    assert [e1, e2, e3, e4] + [e5] == [e1, e2, e3, e4, e5];
  }
}
