/** Object metadata (`BaseObject`) and the full-text index built from it. Metadata is a map
    from keys to decoded JSON values. The site's metatype table (`settings.metatypes`) is a
    parameter. The external helpers `slugify` and `normalize_meta` are function parameters:
    `None` from either of them stands for the exception it raises. */
module BaseObjects {
  import opened Wrappers
  import opened JsonValue

  type Meta = map<string, Json>

  /** The two settings of a metatype the core reads: the full-text weight (0 when the key
      is not indexed, standing for both `0` and `None`) and the default value. */
  datatype MetaType = MetaType(fulltext: int, default: Json)

  type MetaTypes = map<string, MetaType>

  /** The weight given to every word of a subclip title. */
  const SubclipWeight := 8

  function Max(a: int, b: int): int {
    if a < b then b else a
  }

  // ---------------------------------------------------------------------------------------
  // The full-text index
  // ---------------------------------------------------------------------------------------

  /** One producer of words: the words `slugify` returned for one value and their weight. */
  datatype Source = Source(words: seq<string>, weight: int)

  ghost predicate Mentioned(sources: set<Source>, w: string) {
    exists s :: s in sources && w in s.words
  }

  ghost predicate Attained(sources: set<Source>, w: string, weight: int) {
    exists s :: s in sources && w in s.words && s.weight == weight
  }

  /** `ft` indexes exactly the words of `sources`, each with the largest weight of a source
      producing it. */
  ghost predicate IsMaxIndex(ft: map<string, int>, sources: set<Source>) {
    && (forall w :: w in ft <==> Mentioned(sources, w))
    && (forall w, s :: w in ft && s in sources && w in s.words ==> s.weight <= ft[w])
    && (forall w :: w in ft ==> Attained(sources, w, ft[w]))
  }

  /** The title of one subclip record: `k.get("title", "")`. */
  function TitleOf(fields: map<string, Json>): (title: Json)
    ensures "title" in fields ==> title == fields["title"]
    ensures "title" !in fields ==> title == JStr("")
  {
    if "title" in fields then fields["title"] else JStr("")
  }

  /** The titles of a list of subclip records, or `None` when one of them is not a dict
      (`.get` raises). */
  function Titles(items: seq<Json>): (r: Option<seq<Json>>)
    ensures r.Some? <==> forall i :: 0 <= i < |items| ==> items[i].JObj?
    ensures r.Some? ==> |r.value| == |items|
    ensures r.Some? ==> forall i :: 0 <= i < |items| ==> r.value[i] == TitleOf(items[i].fields)
  {
    if items == [] then Some([])
    else
      match items[0]
      case JObj(fields) =>
        (match Titles(items[1..])
         case Some(rest) => Some([TitleOf(fields)] + rest)
         case None => None)
      case _ => None
  }

  /** The list comprehension over `meta["subclips"]`. Iterating a string or a dict yields
      strings, which have no `.get`, so only empty ones pass; other scalars are not
      iterable. `None` means the exception escapes `create_ft_index`. */
  function SubclipTitles(v: Json): (r: Option<seq<Json>>)
    ensures v.JArr? ==> r == Titles(v.items)
    ensures v.JStr? ==> (r.Some? <==> v.s == "")
    ensures v.JObj? ==> (r.Some? <==> v.fields == map[])
    ensures !v.JArr? && r.Some? ==> r.value == []
    ensures v.JNull? || v.JBool? || v.JInt? ==> r.None?
  {
    match v
    case JArr(items) => Titles(items)
    case JStr(s) => if s == "" then Some([]) else None
    case JObj(fields) => if fields == map[] then Some([]) else None
    case _ => None
  }

  /** The subclip titles that slugify, each a source of weight 8. */
  ghost function TitleSources(titles: seq<Json>, slugify: Json -> Option<seq<string>>): set<Source> {
    set t | t in titles && slugify(t).Some? :: Source(slugify(t).value, SubclipWeight)
  }

  /** Indexed means: a known metatype with a non-zero full-text weight. */
  predicate Indexed(metatypes: MetaTypes, key: string) {
    key in metatypes && metatypes[key].fulltext != 0
  }

  /** The indexed keys among `keys` whose values slugify, each a source of its weight. */
  ghost function KeySources(meta: Meta, metatypes: MetaTypes, slugify: Json -> Option<seq<string>>,
                            keys: set<string>): set<Source> {
    set k | k in keys && k in meta && Indexed(metatypes, k) && slugify(meta[k]).Some?
      :: Source(slugify(meta[k]).value, metatypes[k].fulltext)
  }

  /** Every source of words for the index of `meta`. */
  ghost function Sources(meta: Meta, metatypes: MetaTypes, slugify: Json -> Option<seq<string>>,
                         titles: seq<Json>): set<Source> {
    TitleSources(titles, slugify) + KeySources(meta, metatypes, slugify, meta.Keys)
  }

  /** `ft` after inserting `words` with `weight`, keeping the larger weight of a known word. */
  function Raised(ft: map<string, int>, words: seq<string>, weight: int): (r: map<string, int>)
    ensures forall x :: x in r <==> x in ft || x in words
    ensures forall x :: x in ft && x !in words ==> r[x] == ft[x]
    ensures forall x :: x in words ==> r[x] >= weight && (x in ft ==> r[x] >= ft[x])
    ensures forall x :: x in words ==> r[x] == weight || (x in ft && r[x] == ft[x])
  {
    map x | x in ft.Keys + (set w | w in words) ::
      if x in words then (if x in ft then Max(ft[x], weight) else weight) else ft[x]
  }

  lemma RaisedStep(ft: map<string, int>, words: seq<string>, j: nat, weight: int)
    requires j < |words|
    ensures var cur := Raised(ft, words[..j], weight);
            Raised(ft, words[..j + 1], weight)
              == cur[words[j] := if words[j] in cur then Max(cur[words[j]], weight) else weight]
  {
  }

  /** Inserting one source into a max-weight index yields the max-weight index of the
      enlarged set of sources. */
  lemma RaisedKeepsMaxIndex(ft: map<string, int>, sources: set<Source>, words: seq<string>, weight: int)
    requires IsMaxIndex(ft, sources)
    ensures IsMaxIndex(Raised(ft, words, weight), sources + {Source(words, weight)})
  {
    var r := Raised(ft, words, weight);
    var src := Source(words, weight);
    var all := sources + {src};
    forall w
      ensures w in r <==> Mentioned(all, w)
    {
      if w in words {
        assert src in all && w in src.words;
      }
      if Mentioned(all, w) {
        var s :| s in all && w in s.words;
        if s != src {
          assert Mentioned(sources, w);
        }
      }
    }
    forall w | w in r
      ensures Attained(all, w, r[w])
    {
      if w in ft {
        assert Attained(sources, w, ft[w]);
        var s :| s in sources && w in s.words && s.weight == ft[w];
        assert s in all;
      }
      if w in words {
        assert src in all && w in src.words;
      }
    }
  }

  /** The inner loop of `create_ft_index`: insert each word, keeping the larger weight. */
  method RaiseWords(ft: map<string, int>, words: seq<string>, weight: int) returns (r: map<string, int>)
    ensures r == Raised(ft, words, weight)
  {
    r := ft;
    var j := 0;
    while j < |words|
      invariant j <= |words|
      invariant r == Raised(ft, words[..j], weight)
    {
      var word := words[j];
      RaisedStep(ft, words, j, weight);
      if word !in r {
        r := r[word := weight];
      } else {
        r := r[word := Max(r[word], weight)];
      }
      j := j + 1;
    }
    assert words[..j] == words;
  }

  lemma TitleSourcesStep(titles: seq<Json>, i: nat, slugify: Json -> Option<seq<string>>)
    requires i < |titles|
    ensures TitleSources(titles[..i + 1], slugify)
              == TitleSources(titles[..i], slugify)
                 + (if slugify(titles[i]).Some? then {Source(slugify(titles[i]).value, SubclipWeight)} else {})
  {
  }

  lemma KeySourcesStep(meta: Meta, metatypes: MetaTypes, slugify: Json -> Option<seq<string>>,
                       done: set<string>, key: string)
    requires key in meta
    ensures KeySources(meta, metatypes, slugify, done + {key})
              == KeySources(meta, metatypes, slugify, done)
                 + (if Indexed(metatypes, key) && slugify(meta[key]).Some?
                    then {Source(slugify(meta[key]).value, metatypes[key].fulltext)} else {})
  {
  }

  /** The subclip loop of `create_ft_index`: each title that slugifies adds its words with
      weight 8; one that raises is skipped. */
  method IndexTitles(titles: seq<Json>, slugify: Json -> Option<seq<string>>) returns (index: map<string, int>)
    ensures IsMaxIndex(index, TitleSources(titles, slugify))
  {
    index := map[];
    var i := 0;
    ghost var seen: set<Source> := {};
    assert TitleSources(titles[..0], slugify) == {};
    while i < |titles|
      invariant i <= |titles|
      invariant seen == TitleSources(titles[..i], slugify)
      invariant IsMaxIndex(index, seen)
    {
      TitleSourcesStep(titles, i, slugify);
      var words := slugify(titles[i]);
      if words.Some? {
        RaisedKeepsMaxIndex(index, seen, words.value, SubclipWeight);
        index := RaiseWords(index, words.value, SubclipWeight);
      }
      i := i + 1;
      seen := TitleSources(titles[..i], slugify);
    }
    assert titles[..i] == titles;
  }

  /** The index after visiting `key` in the key loop. */
  function KeyStep(ft: map<string, int>, meta: Meta, metatypes: MetaTypes,
                   slugify: Json -> Option<seq<string>>, key: string): (r: map<string, int>)
    requires key in meta
    ensures forall w :: w in ft ==> w in r && r[w] >= ft[w]
    ensures !(Indexed(metatypes, key) && slugify(meta[key]).Some?) ==> r == ft
    ensures Indexed(metatypes, key) && slugify(meta[key]).Some? ==>
      forall w :: w in slugify(meta[key]).value ==> w in r && r[w] >= metatypes[key].fulltext
    ensures forall w :: w in r && w !in ft ==> Indexed(metatypes, key) && w in slugify(meta[key]).value
  {
    if Indexed(metatypes, key) && slugify(meta[key]).Some?
    then Raised(ft, slugify(meta[key]).value, metatypes[key].fulltext)
    else ft
  }

  lemma KeyStepKeepsMaxIndex(ft: map<string, int>, base: set<Source>, meta: Meta, metatypes: MetaTypes,
                             slugify: Json -> Option<seq<string>>, done: set<string>, key: string)
    requires key in meta
    requires IsMaxIndex(ft, base + KeySources(meta, metatypes, slugify, done))
    ensures IsMaxIndex(KeyStep(ft, meta, metatypes, slugify, key),
                       base + KeySources(meta, metatypes, slugify, done + {key}))
  {
    KeySourcesStep(meta, metatypes, slugify, done, key);
    if Indexed(metatypes, key) && slugify(meta[key]).Some? {
      var src := Source(slugify(meta[key]).value, metatypes[key].fulltext);
      RaisedKeepsMaxIndex(ft, base + KeySources(meta, metatypes, slugify, done), src.words, src.weight);
      assert base + KeySources(meta, metatypes, slugify, done + {key})
          == base + KeySources(meta, metatypes, slugify, done) + {src};
    } else {
      assert KeySources(meta, metatypes, slugify, done + {key}) == KeySources(meta, metatypes, slugify, done);
    }
  }

  /** The key loop of `create_ft_index`, continuing from the max-weight index of `base`:
      an indexed key whose value slugifies adds its words with its metatype's weight. */
  method IndexKeys(index: map<string, int>, ghost base: set<Source>, meta: Meta, metatypes: MetaTypes,
                   slugify: Json -> Option<seq<string>>) returns (ft: map<string, int>)
    requires IsMaxIndex(index, base)
    ensures IsMaxIndex(ft, base + KeySources(meta, metatypes, slugify, meta.Keys))
  {
    ft := index;
    var keys := meta.Keys;
    ghost var done: set<string> := {};
    ghost var seen := base;
    assert KeySources(meta, metatypes, slugify, done) == {};
    while keys != {}
      invariant keys + done == meta.Keys && keys !! done
      invariant seen == base + KeySources(meta, metatypes, slugify, done)
      invariant IsMaxIndex(ft, seen)
      decreases keys
    {
      var key :| key in keys;
      KeyStepKeepsMaxIndex(ft, base, meta, metatypes, slugify, done, key);
      if key in metatypes && metatypes[key].fulltext != 0 {
        var words := slugify(meta[key]);
        if words.Some? {
          ft := RaiseWords(ft, words.value, metatypes[key].fulltext);
        }
      }
      keys := keys - {key};
      done := done + {key};
      seen := base + KeySources(meta, metatypes, slugify, done);
    }
    assert done == meta.Keys;
  }

  /** `create_ft_index`. `None` is the exception raised while listing the subclip titles;
      a value that does not slugify is skipped. */
  method CreateFtIndex(meta: Meta, metatypes: MetaTypes, slugify: Json -> Option<seq<string>>)
    returns (ft: Option<map<string, int>>)
    ensures ft.None? <==> "subclips" in meta && SubclipTitles(meta["subclips"]).None?
    ensures ft.Some? ==>
      var titles := if "subclips" in meta then SubclipTitles(meta["subclips"]).value else [];
      IsMaxIndex(ft.value, Sources(meta, metatypes, slugify, titles))
  {
    var titles: seq<Json> := [];
    if "subclips" in meta {
      var listed := SubclipTitles(meta["subclips"]);
      if listed.None? {
        return None;
      }
      titles := listed.value;
    }
    var index := IndexTitles(titles, slugify);
    var r := IndexKeys(index, TitleSources(titles, slugify), meta, metatypes, slugify);
    return Some(r);
  }

  /** There is only one max-weight index of a set of sources, so the index does not
      depend on the order in which the keys of `meta` are visited. */
  lemma MaxIndexUnique(a: map<string, int>, b: map<string, int>, sources: set<Source>)
    requires IsMaxIndex(a, sources) && IsMaxIndex(b, sources)
    ensures a == b
  {
  }

  // ---------------------------------------------------------------------------------------
  // Reading metadata
  // ---------------------------------------------------------------------------------------

  /** `obj[key]`: the stored value; a missing or `None` value of a known metatype reads as
      the metatype's default; otherwise `None`. */
  function Lookup(meta: Meta, metatypes: MetaTypes, key: string): (r: Json)
    ensures key in meta && meta[key] != JNull ==> r == meta[key]
    ensures (key !in meta || meta[key] == JNull) && key in metatypes ==> r == metatypes[key].default
    ensures (key !in meta || meta[key] == JNull) && key !in metatypes ==> r == JNull
  {
    var value := if key in meta then meta[key] else JNull;
    if value == JNull && key in metatypes then metatypes[key].default else value
  }

  /** `obj.get(key, default)`: `obj[key]`, or the caller's default where that is `None`. */
  function Get(meta: Meta, metatypes: MetaTypes, key: string, default: Json): (r: Json)
    ensures Lookup(meta, metatypes, key) != JNull ==> r == Lookup(meta, metatypes, key)
    ensures Lookup(meta, metatypes, key) == JNull ==> r == default
    ensures r == JNull <==> Lookup(meta, metatypes, key) == JNull && default == JNull
  {
    var value := Lookup(meta, metatypes, key);
    if value == JNull then default else value
  }

  /** `int(v)` raised. */
  datatype IdError = NotAnInteger(value: Json)

  /** `obj.id`: `None` for a missing or falsy stored id, else `int()` of it. `parseDecimal`
      is `int()` on a string. */
  function Id(meta: Meta, parseDecimal: string -> Option<int>): (r: Result<Option<int>, IdError>)
    ensures r == Success(None) <==> "id" !in meta || !Truthy(meta["id"])
    ensures "id" in meta && meta["id"].JInt? && meta["id"].i != 0 ==> r == Success(Some(meta["id"].i))
    ensures "id" in meta && meta["id"] == JBool(true) ==> r == Success(Some(1))
    ensures "id" in meta && meta["id"].JStr? && meta["id"].s != "" && parseDecimal(meta["id"].s).Some? ==>
      r == Success(Some(parseDecimal(meta["id"].s).value))
    ensures r.Failure? ==> "id" in meta && r.error == NotAnInteger(meta["id"])
    ensures r.Failure? <==>
      "id" in meta && Truthy(meta["id"])
      && (meta["id"].JArr? || meta["id"].JObj? || (meta["id"].JStr? && parseDecimal(meta["id"].s).None?))
  {
    var id := if "id" in meta then meta["id"] else JNull;
    if !Truthy(id) then Success(None)
    else
      match id
      case JInt(i) => Success(Some(i))
      case JBool(_) => Success(Some(1))
      case JStr(s) =>
        (match parseDecimal(s)
         case Some(n) => Success(Some(n))
         case None => Failure(NotAnInteger(id)))
      case _ => Failure(NotAnInteger(id))
  }

  // ---------------------------------------------------------------------------------------
  // Writing metadata
  // ---------------------------------------------------------------------------------------

  /** The ValueError `__setitem__` raises: the key and the value as given. */
  datatype InvalidValue = InvalidValue(key: string, value: Json)

  /** `obj[key] = value` on the metadata `meta`: the normalized value is stored, a
      normalized `None` removes the key, and a normalization failure leaves `meta` as it
      was. No other key changes. */
  function Assigned(meta: Meta, key: string, value: Json, normalize: (string, Json) -> Option<Json>)
    : (r: Result<Meta, InvalidValue>)
    ensures r.Failure? <==> normalize(key, value).None?
    ensures r.Failure? ==> r.error == InvalidValue(key, value)
    ensures r.Success? ==> (key in r.value <==> normalize(key, value).value != JNull)
    ensures r.Success? && key in r.value ==> r.value[key] == normalize(key, value).value
    ensures r.Success? ==> forall k :: k != key ==> (k in r.value <==> k in meta)
    ensures r.Success? ==> forall k :: k != key && k in meta ==> r.value[k] == meta[k]
  {
    match normalize(key, value)
    case None => Failure(InvalidValue(key, value))
    case Some(v) => if v == JNull then Success(meta - {key}) else Success(meta[key := v])
  }

  /** `update(items)` on `meta`: each pair is assigned in turn; the first failure stops
      the loop, keeping the assignments before it, and is returned. */
  function Patched(meta: Meta, items: seq<(string, Json)>, normalize: (string, Json) -> Option<Json>)
    : (r: (Meta, Option<InvalidValue>))
    ensures r.1.Some? ==> exists i :: 0 <= i < |items| && r.1.value == InvalidValue(items[i].0, items[i].1)
    ensures forall k :: k in r.0 && k !in meta ==> exists i :: 0 <= i < |items| && items[i].0 == k
    decreases |items|
  {
    if items == [] then (meta, None)
    else
      match Assigned(meta, items[0].0, items[0].1, normalize)
      case Failure(e) => (meta, Some(e))
      case Success(next) => Patched(next, items[1..], normalize)
  }

  predicate Normalizes(items: seq<(string, Json)>, normalize: (string, Json) -> Option<Json>) {
    forall i :: 0 <= i < |items| ==> normalize(items[i].0, items[i].1).Some?
  }

  /** `update` fails exactly when some pair fails to normalize, and then reports the first
      such pair, having applied the pairs before it. */
  lemma {:induction false} PatchedFailsAtFirst(meta: Meta, items: seq<(string, Json)>,
                                               normalize: (string, Json) -> Option<Json>)
    ensures Patched(meta, items, normalize).1.None? <==> Normalizes(items, normalize)
    ensures Patched(meta, items, normalize).1.Some? ==>
      exists j :: 0 <= j < |items| && Normalizes(items[..j], normalize)
        && normalize(items[j].0, items[j].1).None?
        && Patched(meta, items, normalize) == (Patched(meta, items[..j], normalize).0, Some(InvalidValue(items[j].0, items[j].1)))
    decreases |items|
  {
    if items != [] {
      var r := Assigned(meta, items[0].0, items[0].1, normalize);
      if r.Failure? {
        assert items[..0] == [];
        assert Normalizes(items[..0], normalize);
      } else {
        PatchedFailsAtFirst(r.value, items[1..], normalize);
        assert Normalizes(items, normalize) <==> Normalizes(items[1..], normalize);
        if Patched(meta, items, normalize).1.Some? {
          var j :| 0 <= j < |items[1..]| && Normalizes(items[1..][..j], normalize)
            && normalize(items[1..][j].0, items[1..][j].1).None?
            && Patched(r.value, items[1..], normalize)
               == (Patched(r.value, items[1..][..j], normalize).0, Some(InvalidValue(items[1..][j].0, items[1..][j].1)));
          assert items[..j + 1][1..] == items[1..][..j];
          assert Normalizes(items[..j + 1], normalize);
          assert items[j + 1] == items[1..][j];
        }
      }
    }
  }

  predicate NotPatched(items: seq<(string, Json)>, key: string) {
    forall i :: 0 <= i < |items| ==> items[i].0 != key
  }

  /** A key that no pair names keeps its value (or its absence) through `update`. */
  lemma {:induction false} PatchedLeavesOthers(meta: Meta, items: seq<(string, Json)>,
                                               normalize: (string, Json) -> Option<Json>, key: string)
    requires NotPatched(items, key)
    ensures key in Patched(meta, items, normalize).0 <==> key in meta
    ensures key in meta ==> Patched(meta, items, normalize).0[key] == meta[key]
    decreases |items|
  {
    if items != [] {
      var r := Assigned(meta, items[0].0, items[0].1, normalize);
      if r.Success? {
        PatchedLeavesOthers(r.value, items[1..], normalize, key);
      }
    }
  }

  predicate DistinctKeys(items: seq<(string, Json)>) {
    forall i, j :: 0 <= i < j < |items| ==> items[i].0 != items[j].0
  }

  /** When every pair normalizes and no key repeats (as in a dict), `update` leaves each
      named key holding its normalized value, or removes it when that is `None`. */
  lemma {:induction false} PatchedStoresEach(meta: Meta, items: seq<(string, Json)>,
                                             normalize: (string, Json) -> Option<Json>, i: nat)
    requires Normalizes(items, normalize) && DistinctKeys(items) && i < |items|
    ensures var m := Patched(meta, items, normalize).0;
            var v := normalize(items[i].0, items[i].1).value;
            (items[i].0 in m <==> v != JNull) && (items[i].0 in m ==> m[items[i].0] == v)
    decreases |items|
  {
    var r := Assigned(meta, items[0].0, items[0].1, normalize);
    assert Normalizes(items[1..], normalize) by {
      forall k | 0 <= k < |items[1..]|
        ensures normalize(items[1..][k].0, items[1..][k].1).Some?
      {
        assert items[1..][k] == items[k + 1];
      }
    }
    if i == 0 {
      assert NotPatched(items[1..], items[0].0) by {
        forall k | 0 <= k < |items[1..]|
          ensures items[1..][k].0 != items[0].0
        {
          assert items[1..][k] == items[k + 1];
        }
      }
      PatchedLeavesOthers(r.value, items[1..], normalize, items[0].0);
    } else {
      assert DistinctKeys(items[1..]) by {
        forall a, b | 0 <= a < b < |items[1..]|
          ensures items[1..][a].0 != items[1..][b].0
        {
          assert items[1..][a] == items[a + 1] && items[1..][b] == items[b + 1];
        }
      }
      PatchedStoresEach(r.value, items[1..], normalize, i - 1);
      assert items[1..][i - 1] == items[i];
    }
  }

  /** Reading a key back after assigning it yields the normalized value, or the metatype
      default when the normalized value was `None`. */
  lemma GetAfterSet(meta: Meta, metatypes: MetaTypes, key: string, value: Json,
                    normalize: (string, Json) -> Option<Json>, default: Json)
    requires normalize(key, value).Some?
    ensures var m := Assigned(meta, key, value, normalize).value;
            var v := normalize(key, value).value;
            && (v != JNull ==> Get(m, metatypes, key, default) == v)
            && (v == JNull ==> Lookup(m, metatypes, key) == (if key in metatypes then metatypes[key].default else JNull))
  {
  }

  /** The constructor's metadata, `defaults | meta`: the given value of a key wins over its
      default. */
  function Initial(defaults: Meta, given: Option<Meta>): (m: Meta)
    ensures forall k :: k in m <==> k in defaults || (given.Some? && k in given.value)
    ensures forall k :: given.Some? && k in given.value ==> m[k] == given.value[k]
    ensures forall k :: k in defaults && (given.None? || k !in given.value) ==> m[k] == defaults[k]
  {
    defaults + given.GetOr(map[])
  }

  /** A metadata object. `defaults` is the class-level default metadata. The database
      connection is not part of this model. */
  class BaseObject {
    const defaults: Meta
    var meta: Meta
    /** The user operating on the object, if given. */
    var username: Option<string>

    constructor (defaults: Meta, given: Option<Meta>, username: Option<string>)
      ensures this.defaults == defaults && this.username == username
      ensures meta == Initial(defaults, given)
    {
      this.defaults := defaults;
      this.username := username;
      meta := defaults + given.GetOr(map[]);
    }

    /** `__setitem__`; `err` is the ValueError raised. */
    method SetItem(key: string, value: Json, normalize: (string, Json) -> Option<Json>)
      returns (err: Option<InvalidValue>)
      modifies this
      ensures username == old(username)
      ensures Assigned(old(meta), key, value, normalize).Success? ==>
        err.None? && meta == Assigned(old(meta), key, value, normalize).value
      ensures Assigned(old(meta), key, value, normalize).Failure? ==>
        err == Some(Assigned(old(meta), key, value, normalize).error) && meta == old(meta)
    {
      var normalized := normalize(key, value);
      if normalized.None? {
        return Some(InvalidValue(key, value));
      }
      if normalized.value == JNull {
        meta := meta - {key};
      } else {
        meta := meta[key := normalized.value];
      }
      return None;
    }

    /** `update`: the pairs of the patch in its iteration order, assigned one by one until
      one fails. */
    method Update(items: seq<(string, Json)>, normalize: (string, Json) -> Option<Json>)
      returns (err: Option<InvalidValue>)
      modifies this
      ensures username == old(username)
      ensures (meta, err) == Patched(old(meta), items, normalize)
    {
      var i := 0;
      while i < |items|
        invariant i <= |items|
        invariant username == old(username)
        invariant Patched(meta, items[i..], normalize) == Patched(old(meta), items, normalize)
      {
        assert items[i..][1..] == items[i + 1..];
        err := SetItem(items[i].0, items[i].1, normalize);
        if err.Some? {
          return;
        }
        i := i + 1;
      }
      return None;
    }

    /** `from_untrusted`: a new object holding the defaults, then updated with the patch;
      a failure propagates and the object is dropped. */
    static method FromUntrusted(defaults: Meta, items: seq<(string, Json)>,
                                normalize: (string, Json) -> Option<Json>, username: Option<string>)
      returns (r: Result<BaseObject, InvalidValue>)
      ensures r.Failure? <==> Patched(defaults, items, normalize).1.Some?
      ensures r.Failure? ==> r.error == Patched(defaults, items, normalize).1.value
      ensures r.Success? ==> fresh(r.value) && r.value.defaults == defaults && r.value.username == username
      ensures r.Success? ==> r.value.meta == Patched(defaults, items, normalize).0
    {
      var res := new BaseObject(defaults, None, username);
      assert res.meta == defaults;
      var err := res.Update(items, normalize);
      if err.Some? {
        return Failure(err.value);
      }
      return Success(res);
    }
  }
}
