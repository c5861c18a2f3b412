/** The recommendation endpoints of the backend
    (backend/controller/recommendation.controller.js): the AI service ranks
    document ids such as "project_<id>", and the handlers turn that ranking
    into stored projects. */
module Recommendation {
  import opened Common

  /** A stored project as the handlers return it. */
  datatype Doc = Doc(id: string, title: string, createdAt: int)

  /** The `recommended_ids` field of an AI reply: an array of possibly
      missing strings, or anything else. */
  datatype IdList = NotArray | Items(items: seq<Option<string>>)

  const Prefix: string := "project_"

  predicate IsProjectRef(id: Option<string>) {
    id.Some? && StartsWith(id.value, Prefix)
  }

  /** `id.split("_")[1]` for an id that starts with "project_": the text
      between the first and the second underscore. */
  function SecondPiece(s: string): (r: string)
    requires StartsWith(s, Prefix)
    ensures '_' !in r
    ensures r == Split(s[|Prefix|..], '_')[0]
  {
    assert s == "project" + ['_'] + s[|Prefix|..];
    SplitAfterPiece("project", s[|Prefix|..], '_');
    Split(s, '_')[1]
  }

  /** extractProjectIds: keep the references to projects, take their id
      part, and keep the non-empty ids that `isValid` (ObjectId.isValid)
      accepts. The three passes run here as one. */
  function ExtractFrom(items: seq<Option<string>>, isValid: string -> bool): (r: seq<string>)
    ensures |r| <= |items|
    ensures forall x :: x in r ==> x != "" && isValid(x) && '_' !in x
  {
    if items == [] then []
    else
      var head := if IsProjectRef(items[0]) && SecondPiece(items[0].value) != ""
                     && isValid(SecondPiece(items[0].value))
                  then [SecondPiece(items[0].value)] else [];
      head + ExtractFrom(items[1..], isValid)
  }

  /** The second pass on its own: the id part of every reference. */
  function Pieces(refs: seq<Option<string>>): (r: seq<string>)
    requires forall i :: 0 <= i < |refs| ==> IsProjectRef(refs[i])
    ensures |r| == |refs|
    ensures forall i :: 0 <= i < |refs| ==> IsProjectRef(refs[i]) && r[i] == SecondPiece(refs[i].value)
  {
    seq(|refs|, i requires 0 <= i < |refs| && IsProjectRef(refs[i]) => SecondPiece(refs[i].value))
  }

  /** The third pass's test: `id && mongoose.Types.ObjectId.isValid(id)`. */
  function Keep(isValid: string -> bool): string -> bool {
    (x: string) => x != "" && isValid(x)
  }

  /** The three passes written out one after the other. */
  function ThreePasses(items: seq<Option<string>>, isValid: string -> bool): seq<string> {
    Filter(Pieces(Filter(items, IsProjectRef)), Keep(isValid))
  }

  /** The fused extraction is the filter, map, filter pipeline: it keeps,
      in item order, exactly the id parts of the references that are
      non-empty and valid. */
  lemma {:induction false} ExtractIsThreePasses(items: seq<Option<string>>, isValid: string -> bool)
    ensures ExtractFrom(items, isValid) == ThreePasses(items, isValid)
  {
    if items != [] {
      var h, t := items[0], items[1..];
      ExtractIsThreePasses(t, isValid);
      var refs := Filter(t, IsProjectRef);
      assert Filter(items, IsProjectRef) == (if IsProjectRef(h) then [h] + refs else refs);
      if IsProjectRef(h) {
        var x := SecondPiece(h.value);
        assert Pieces([h] + refs) == [x] + Pieces(refs);
        assert ([x] + Pieces(refs))[1..] == Pieces(refs);
      }
    }
  }

  function ExtractProjectIds(v: IdList, isValid: string -> bool): (r: seq<string>)
    ensures v.NotArray? ==> r == []
    ensures v.Items? ==> r == Filter(Pieces(Filter(v.items, IsProjectRef)), Keep(isValid))
    ensures forall x :: x in r ==> x != "" && isValid(x) && '_' !in x
  {
    if v.NotArray? then []
    else
      ExtractIsThreePasses(v.items, isValid);
      ExtractFrom(v.items, isValid)
  }

  /** The document ids of the AI index, "project_" + id. */
  function DocIds(ids: seq<string>): (r: seq<Option<string>>)
    ensures |r| == |ids|
  {
    seq(|ids|, i requires 0 <= i < |ids| => Some(Prefix + ids[i]))
  }

  /** Extraction undoes the document-id format: for valid ids without an
      underscore it returns them all, in their order. */
  lemma {:induction false} ExtractDocIds(ids: seq<string>, isValid: string -> bool)
    requires forall i :: 0 <= i < |ids| ==> ids[i] != "" && '_' !in ids[i] && isValid(ids[i])
    ensures ExtractFrom(DocIds(ids), isValid) == ids
  {
    if ids != [] {
      var d := DocIds(ids);
      assert d[0] == Some(Prefix + ids[0]);
      assert (Prefix + ids[0])[|Prefix|..] == ids[0];
      SplitNoSep(ids[0], '_');
      assert SecondPiece(d[0].value) == ids[0];
      assert d[1..] == DocIds(ids[1..]);
      ExtractDocIds(ids[1..], isValid);
    }
  }

  /** A text without "project_" in front never yields an id. */
  lemma {:induction false} ExtractSkipsOthers(items: seq<Option<string>>, isValid: string -> bool)
    requires forall i :: 0 <= i < |items| ==> !IsProjectRef(items[i])
    ensures ExtractFrom(items, isValid) == []
  {
    if items != [] {
      ExtractSkipsOthers(items[1..], isValid);
    }
  }

  /** The stored project with that id (the id-to-project map). */
  function Lookup(db: seq<Doc>, id: string): (r: Option<Doc>)
    ensures r.Some? ==> r.value in db && r.value.id == id
    ensures r.None? <==> forall d :: d in db ==> d.id != id
  {
    if db == [] then None
    else if db[0].id == id then Some(db[0])
    else Lookup(db[1..], id)
  }

  /** fetchFullProjectDetails: the stored project of each id, in the order
      of the ids; unknown ids are dropped. */
  function Fetch(ids: seq<string>, db: seq<Doc>): (r: seq<Doc>)
    ensures |r| <= |ids|
    ensures forall d :: d in r ==> d in db && d.id in ids
    ensures forall id :: id in ids && Lookup(db, id).Some? ==> Lookup(db, id).value in r
  {
    if ids == [] then []
    else
      var l := Lookup(db, ids[0]);
      (if l.Some? then [l.value] else []) + Fetch(ids[1..], db)
  }

  /** Fetching two id lists one after the other is fetching their
      concatenation. */
  lemma {:induction false} FetchAppend(a: seq<string>, b: seq<string>, db: seq<Doc>)
    ensures Fetch(a + b, db) == Fetch(a, db) + Fetch(b, db)
  {
    if a == [] {
      assert a + b == b;
    } else {
      assert (a + b)[1..] == a[1..] + b;
      FetchAppend(a[1..], b, db);
    }
  }

  /** When every id is stored, each one yields exactly its project, in
      order. */
  lemma {:induction false} FetchAllFound(ids: seq<string>, db: seq<Doc>)
    requires forall i :: 0 <= i < |ids| ==> Lookup(db, ids[i]).Some?
    ensures |Fetch(ids, db)| == |ids|
    ensures forall i :: 0 <= i < |ids| ==> Fetch(ids, db)[i] == Lookup(db, ids[i]).value
  {
    if ids != [] {
      FetchAllFound(ids[1..], db);
      assert Fetch(ids, db) == [Lookup(db, ids[0]).value] + Fetch(ids[1..], db);
    }
  }

  function CreatedDesc(d: Doc): int { -d.createdAt }

  /** `Project.find().sort({ createdAt: -1 })`. */
  function NewestFirst(docs: seq<Doc>): (r: seq<Doc>)
    ensures multiset(r) == multiset(docs)
    ensures forall i, j :: 0 <= i < j < |r| ==> r[i].createdAt >= r[j].createdAt
  {
    var r := SortBy(docs, CreatedDesc);
    assert forall i, j :: 0 <= i < j < |r| ==> CreatedDesc(r[i]) <= CreatedDesc(r[j]);
    r
  }

  datatype Response = Error(code: int) | Listed(docs: seq<Doc>) | Related(top: seq<Doc>, other: seq<Doc>)

  /** The first six ranked ids (`slice(0, 6)`) and the rest (`slice(6)`). */
  function Top6(ids: seq<string>): seq<string> { if |ids| <= 6 then ids else ids[..6] }
  function After6(ids: seq<string>): seq<string> { if |ids| <= 6 then [] else ids[6..] }

  /** recommendForUser: `reply` is the AI ranking, `None` when the call threw. */
  function RecommendForUser(userExists: bool, reply: Option<IdList>, db: seq<Doc>,
                            isValid: string -> bool): (r: Response)
    ensures !userExists ==> r == Error(404)
    ensures userExists ==> r.Listed?
    ensures userExists ==> (var ids := if reply.None? then [] else ExtractProjectIds(reply.value, isValid);
      r.docs == if Fetch(ids, db) != [] then Fetch(ids, db) else NewestFirst(db))
  {
    if !userExists then Error(404)
    else
      var ids := if reply.None? then [] else ExtractProjectIds(reply.value, isValid);
      var picked := if |ids| > 0 then Fetch(Top6(ids), db) + Fetch(After6(ids), db) else [];
      assert picked == Fetch(ids, db) by {
        if |ids| > 0 {
          assert Top6(ids) + After6(ids) == ids;
          FetchAppend(Top6(ids), After6(ids), db);
        }
      }
      if picked == [] then Listed(NewestFirst(db)) else Listed(picked)
  }

  function NotIn(exclude: seq<string>): Doc -> bool {
    (d: Doc) => d.id !in exclude
  }

  function Ids(docs: seq<Doc>): (r: seq<string>)
    ensures |r| == |docs| && forall i :: 0 <= i < |docs| ==> r[i] == docs[i].id
  {
    seq(|docs|, i requires 0 <= i < |docs| => docs[i].id)
  }

  /** The related ranking without the current project. */
  function RelatedIds(reply: IdList, currentId: string, isValid: string -> bool): (r: seq<string>)
    ensures currentId !in r
    ensures forall x :: x in r ==> x in ExtractProjectIds(reply, isValid)
  {
    Filter(ExtractProjectIds(reply, isValid), (id: string) => id != currentId)
  }

  /** recommendRelated. */
  function RecommendRelated(currentId: string, reply: IdList, db: seq<Doc>, isValid: string -> bool): (r: Response)
    ensures !isValid(currentId) ==> r == Error(400)
    ensures isValid(currentId) && Lookup(db, currentId).None? ==> r == Error(404)
    ensures isValid(currentId) && Lookup(db, currentId).Some? ==> (r.Related?
      && r.top == Fetch(RelatedIds(reply, currentId, isValid), db))
  {
    if !isValid(currentId) then Error(400)
    else if Lookup(db, currentId).None? then Error(404)
    else
      var top := Fetch(RelatedIds(reply, currentId, isValid), db);
      var exclude := [currentId] + Ids(top);
      Related(top, NewestFirst(Filter(db, NotIn(exclude))))
  }

  /** The related lists never show the current project, never show a
      project twice across "top" and "other", and together with the
      current project cover every stored project. */
  lemma RelatedPartition(currentId: string, reply: IdList, db: seq<Doc>, isValid: string -> bool)
    requires isValid(currentId) && Lookup(db, currentId).Some?
    ensures var r := RecommendRelated(currentId, reply, db, isValid);
      (forall d :: d in r.top ==> d.id != currentId)
      && (forall d :: d in r.other ==> d.id != currentId && d in db)
      && (forall d, t :: d in r.other && t in r.top ==> d.id != t.id)
      && (forall d :: d in db ==> d.id == currentId || d in r.other || exists t :: t in r.top && t.id == d.id)
  {
    var top := Fetch(RelatedIds(reply, currentId, isValid), db);
    OthersPartition(db, currentId, top);
  }

  /** The partition for any "top" list: "other" is what is left once the
      current project and the ids of "top" are excluded. */
  lemma OthersPartition(db: seq<Doc>, currentId: string, top: seq<Doc>)
    ensures var other := NewestFirst(Filter(db, NotIn([currentId] + Ids(top))));
      (forall d :: d in other ==> d.id != currentId && d in db)
      && (forall d, t :: d in other && t in top ==> d.id != t.id)
      && (forall d :: d in db ==> d.id == currentId || d in other || exists t :: t in top && t.id == d.id)
  {
    var exclude := [currentId] + Ids(top);
    var other := NewestFirst(Filter(db, NotIn(exclude)));
    OthersExcluded(db, exclude);
    forall d, t | d in other && t in top ensures d.id != t.id {
      var i :| 0 <= i < |top| && top[i] == t;
      assert exclude[i + 1] == t.id;
    }
    forall d | d in db && d.id != currentId && d !in other
      ensures exists t :: t in top && t.id == d.id
    {
      var i :| 0 <= i < |exclude| && exclude[i] == d.id;
      assert top[i - 1] in top;
    }
  }

  /** The "other" list holds exactly the stored projects whose id is not
      excluded. */
  lemma OthersExcluded(db: seq<Doc>, exclude: seq<string>)
    ensures forall d :: d in NewestFirst(Filter(db, NotIn(exclude))) <==> d in db && d.id !in exclude
  {
    var kept := Filter(db, NotIn(exclude));
    SortByMembers(kept, CreatedDesc);
  }

  /** searchByQuery. */
  function SearchByQuery(q: Option<string>, reply: IdList, db: seq<Doc>, isValid: string -> bool): (r: Response)
    ensures q.None? || q.value == "" ==> r == Error(400)
    ensures q.Some? && q.value != "" ==> r == Listed(Fetch(ExtractProjectIds(reply, isValid), db))
  {
    if q.None? || q.value == "" then Error(400)
    else Listed(Fetch(ExtractProjectIds(reply, isValid), db))
  }
}
