/** The memory cache WorkoutTemplateService reads through: its keys, the
    response each key stands for, and when the cached entries still agree
    with the catalog. */
module TemplateCache {
  import opened Guids
  import opened Wrappers
  import opened Entities
  import opened Tables
  import opened TemplateCatalog
  import opened TemplateCascade
  import opened TemplateImport

  /** The four kinds of entry the service stores. */
  datatype CacheKey =
    | AllBasic
    | AllDetailed
    | TemplateKey(id: Guid)
    | DetailsKey(id: Guid)

  const AllBasicText := "AllTemplatesBasic"
  const AllDetailedText := "AllTemplatesDetailed"
  const TemplatePrefix := "Template_"
  const DetailsPrefix := "TemplateWithDetails_"

  /** The key string the service passes to the cache. */
  function KeyText(k: CacheKey): (s: string)
    ensures k.TemplateKey? ==> s == TemplatePrefix + GuidText(k.id)
    ensures k.DetailsKey? ==> s == DetailsPrefix + GuidText(k.id)
  {
    match k
    case AllBasic => AllBasicText
    case AllDetailed => AllDetailedText
    case TemplateKey(id) => TemplatePrefix + GuidText(id)
    case DetailsKey(id) => DetailsPrefix + GuidText(id)
  }

  lemma PrefixedInjective(p: string, x: string, y: string)
    requires p + x == p + y
    ensures x == y
  {
    assert x == (p + x)[|p|..];
    assert y == (p + y)[|p|..];
  }

  /** The characters that tell the key kinds apart. */
  lemma KeyShape(k: CacheKey)
    ensures |KeyText(k)| > 8
    ensures KeyText(k)[0] == if k.TemplateKey? || k.DetailsKey? then 'T' else 'A'
    ensures k.TemplateKey? ==> KeyText(k)[8] == '_'
    ensures k.DetailsKey? ==> KeyText(k)[8] == 'W'
    ensures k.AllBasic? ==> |KeyText(k)| > 12 && KeyText(k)[12] == 'B'
    ensures k.AllDetailed? ==> |KeyText(k)| > 12 && KeyText(k)[12] == 'D'
  {
  }

  /** Different entries never share a key string. */
  lemma KeyTextInjective(a: CacheKey, b: CacheKey)
    ensures KeyText(a) == KeyText(b) <==> a == b
  {
    KeyShape(a);
    KeyShape(b);
    if KeyText(a) == KeyText(b) {
      if a.TemplateKey? && b.TemplateKey? {
        PrefixedInjective(TemplatePrefix, GuidText(a.id), GuidText(b.id));
        GuidTextInjective(a.id, b.id);
      } else if a.DetailsKey? && b.DetailsKey? {
        PrefixedInjective(DetailsPrefix, GuidText(a.id), GuidText(b.id));
        GuidTextInjective(a.id, b.id);
      }
    }
  }

  /** What the service stores: a listing under a catalog key, one response under a per-id key. */
  datatype CacheValue = Listing(views: seq<TemplateView>) | Single(view: TemplateView)

  /** The value the key would be filled with now; None where the lookup would throw. */
  function Fresh(k: CacheKey, c: Catalog): (r: Option<CacheValue>)
    ensures r.None? <==> (k.TemplateKey? || k.DetailsKey?) && !HasKey(c.templates, k.id)
    ensures k.AllBasic? ==> r == Some(Listing(BasicList(c)))
    ensures k.AllDetailed? ==> r == Some(Listing(DetailedList(c)))
    ensures k.TemplateKey? && r.Some? ==> r.value.Single? && r.value.view.template in c.templates &&
                                          r.value.view.template.id == k.id && r.value.view.weeks == []
    ensures k.DetailsKey? && r.Some? ==> r.value.Single? && r.value.view.template in c.templates &&
                                         r.value.view.template.id == k.id
  {
    match k
    case AllBasic => Some(Listing(BasicList(c)))
    case AllDetailed => Some(Listing(DetailedList(c)))
    case TemplateKey(id) =>
      (match Lookup(c.templates, id)
       case None => None
       case Some(t) => Some(Single(BasicView(t))))
    case DetailsKey(id) =>
      (match Lookup(c.templates, id)
       case None => None
       case Some(t) => Some(Single(DetailedView(c, t))))
  }

  /** Every entry the cache holds is what a read of the catalog would return now. */
  ghost predicate Coherent(cache: map<string, CacheValue>, c: Catalog) {
    forall k :: KeyText(k) in cache ==> Fresh(k, c) == Some(cache[KeyText(k)])
  }

  /** Storing a freshly read value keeps the cache coherent. */
  lemma CoherentSet(cache: map<string, CacheValue>, c: Catalog, k: CacheKey, v: CacheValue)
    requires Coherent(cache, c) && Fresh(k, c) == Some(v)
    ensures Coherent(cache[KeyText(k) := v], c)
  {
    forall j | KeyText(j) in cache[KeyText(k) := v]
      ensures Fresh(j, c) == Some(cache[KeyText(k) := v][KeyText(j)])
    {
      KeyTextInjective(j, k);
    }
  }

  /** On a coherent cache, a hit returns what a miss would have read. */
  lemma CoherentHit(cache: map<string, CacheValue>, c: Catalog, k: CacheKey)
    requires Coherent(cache, c) && KeyText(k) in cache
    ensures Fresh(k, c).Some? && cache[KeyText(k)] == Fresh(k, c).value
  {
  }

  /** The keys UpdateTemplateAsync removes. */
  function UpdateKeys(id: Guid): (r: set<string>)
    ensures forall k :: KeyText(k) in r <==> k == AllBasic || k == AllDetailed || k == TemplateKey(id) || k == DetailsKey(id)
  {
    var r := {KeyText(AllBasic), KeyText(AllDetailed), KeyText(TemplateKey(id)), KeyText(DetailsKey(id))};
    forall k ensures KeyText(k) in r <==> k == AllBasic || k == AllDetailed || k == TemplateKey(id) || k == DetailsKey(id) {
      KeyTextInjective(k, AllBasic);
      KeyTextInjective(k, AllDetailed);
      KeyTextInjective(k, TemplateKey(id));
      KeyTextInjective(k, DetailsKey(id));
    }
    r
  }

  lemma UpdateKeysCount(id: Guid)
    ensures |UpdateKeys(id)| == 4
  {
    KeyTextInjective(AllBasic, AllDetailed);
    KeyTextInjective(AllBasic, TemplateKey(id));
    KeyTextInjective(AllBasic, DetailsKey(id));
    KeyTextInjective(AllDetailed, TemplateKey(id));
    KeyTextInjective(AllDetailed, DetailsKey(id));
    KeyTextInjective(TemplateKey(id), DetailsKey(id));
  }

  /** The listing keys: what an import or a delete changes for every template. */
  function CatalogKeys(): (r: set<string>)
    ensures forall k :: KeyText(k) in r <==> k == AllBasic || k == AllDetailed
  {
    var r := {KeyText(AllBasic), KeyText(AllDetailed)};
    forall k ensures KeyText(k) in r <==> k == AllBasic || k == AllDetailed {
      KeyTextInjective(k, AllBasic);
      KeyTextInjective(k, AllDetailed);
    }
    r
  }

  /** Removing the four keys after a header update leaves every remaining entry fresh. */
  lemma UpdateKeepsCoherent(cache: map<string, CacheValue>, c: Catalog, id: Guid, h: TemplateFields)
    requires Bounded(c) && HasKey(c.templates, id) && Coherent(cache, c)
    ensures Coherent(cache - UpdateKeys(id), SetHeader(c, id, h))
  {
    var d := SetHeader(c, id, h);
    var after := cache - UpdateKeys(id);
    forall k | KeyText(k) in after ensures Fresh(k, d) == Some(after[KeyText(k)]) {
      LookupSetValOther(c.templates, c.nextId, id, h, k.id);
      if k.DetailsKey? && HasKey(c.templates, k.id) {
        DetailedViewIgnoresHeaders(c, d, Lookup(c.templates, k.id).value);
      }
    }
  }

  // Delete and import as written leave the cache alone.

  /** A one-template catalog, the template of id 1 with the given header. */
  function Single1(h: TemplateFields): (c: Catalog)
    ensures CatalogValid(c) && HasKey(c.templates, 1)
  {
    var c := Catalog([Row(1, h)], [], [], [], 2);
    assert c.templates[0].id == 1;
    c
  }

  /** After a delete, the cached Template_<id> entry still answers for a template that is gone. */
  lemma DeleteLeavesStaleEntry(h: TemplateFields)
    ensures var c := Single1(h);
      var cache := map[KeyText(TemplateKey(1)) := Single(BasicView(Row(1, h)))];
      Coherent(cache, c) && !Coherent(cache, DeleteCascade(c, 1))
  {
    var c := Single1(h);
    var cache := map[KeyText(TemplateKey(1)) := Single(BasicView(Row(1, h)))];
    forall k | KeyText(k) in cache ensures Fresh(k, c) == Some(cache[KeyText(k)]) {
      KeyTextInjective(k, TemplateKey(1));
    }
    var d := DeleteCascade(c, 1);
    assert d.templates == [];
    assert Fresh(TemplateKey(1), d) == None;
  }

  /** After an import, the cached basic listing misses the new template. */
  lemma ImportLeavesStaleListing(h: TemplateFields, t: TemplateContent)
    ensures var c := Single1(h);
      var cache := map[KeyText(AllBasic) := Listing(BasicList(c))];
      Coherent(cache, c) && !Coherent(cache, Materialize(c, t))
  {
    var c := Single1(h);
    var cache := map[KeyText(AllBasic) := Listing(BasicList(c))];
    forall k | KeyText(k) in cache ensures Fresh(k, c) == Some(cache[KeyText(k)]) {
      KeyTextInjective(k, AllBasic);
    }
    var r := Materialize(c, t);
    MaterializeValid(c, t);
    assert |r.templates| == 2 by {
      AddWeeksRows(InsertTemplate(c, t.header), c.nextId, t.weeks);
    }
    assert |BasicList(r)| != |BasicList(c)|;
  }

  // The evidently intended behaviour: delete removes the same four keys an
  // update removes, and an import removes the two listing keys.

  /** After the cascade, every template that is left still has its id's entries right. */
  lemma InvalidatedDeleteKeepsCoherent(cache: map<string, CacheValue>, c: Catalog, id: Guid)
    requires Bounded(c) && Coherent(cache, c)
    ensures Coherent(cache - UpdateKeys(id), DeleteCascade(c, id))
  {
    var d := DeleteCascade(c, id);
    var after := cache - UpdateKeys(id);
    var keep := (x: Row<TemplateFields>) => x.id != id;
    forall k | KeyText(k) in after ensures Fresh(k, d) == Some(after[KeyText(k)]) {
      // k is a per-id key of another template, which the cache only holds while it exists.
      assert Fresh(k, c).Some?;
      LookupWhere(c.templates, c.nextId, keep, k.id);
      if k.DetailsKey? {
        OtherTemplateUnchanged(c, id, Lookup(c.templates, k.id).value);
      }
    }
  }

  /** An import changes no existing template's detailed view. */
  lemma ImportKeepsOtherViews(c: Catalog, t: TemplateContent, row: Row<TemplateFields>)
    requires Bounded(c) && row.id < c.nextId
    ensures DetailedView(Materialize(c, t), row) == DetailedView(c, row)
  {
    var n := c.nextId;
    var c1 := InsertTemplate(c, t.header);
    var r := Materialize(c, t);
    AddWeeksRows(c1, n, t.weeks);
    var newWeeks := r.weeks[|c.weeks|..];
    assert r.weeks == c.weeks + newWeeks;
    WhereAppendNone(c.weeks, newWeeks, InTemplate(row.id));
    var rows := WeekRowsOf(c, row.id);
    forall j | 0 <= j < |rows|
      ensures WorkoutViews(r, WorkoutRowsOf(r, rows[j].id)) == WorkoutViews(c, WorkoutRowsOf(c, rows[j].id))
    {
      WeekWorkoutsFrame(c, r, n + 1, rows[j].id);
    }
    WeekViewsAgree(r, c, rows);
  }

  /** After an import that also drops the listings, every remaining entry is fresh. */
  lemma InvalidatedImportKeepsCoherent(cache: map<string, CacheValue>, c: Catalog, t: TemplateContent)
    requires CatalogValid(c) && Coherent(cache, c)
    ensures Coherent(cache - CatalogKeys(), Materialize(c, t))
  {
    var r := Materialize(c, t);
    var after := cache - CatalogKeys();
    MaterializeValid(c, t);
    forall k | KeyText(k) in after ensures Fresh(k, r) == Some(after[KeyText(k)]) {
      assert Fresh(k, c).Some?;
      LookupExtends(c.templates, r.templates, r.nextId, k.id);
      var row := Lookup(c.templates, k.id).value;
      KeyBelowBound(c.templates, c.nextId, k.id);
      if k.DetailsKey? {
        ImportKeepsOtherViews(c, t, row);
      }
    }
  }
}
