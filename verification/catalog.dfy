/**
 * The plugin catalog: `dict(zip(name_list, url_list))`, where `name_list`
 * holds the lines of `lv2ls -n` (display names) and `url_list` those of
 * `lv2ls` (plugin URIs). A Python dict keeps its keys in insertion order, so
 * it is modelled as a sequence of entries with pairwise distinct names.
 */
module Catalog {

  /** One (name, uri) pair: a catalog item and, equally, a row of the view. */
  datatype Entry = Entry(name: string, uri: string)

  function Min(a: nat, b: nat): nat
  {
    if a <= b then a else b
  }

  /** The names of a sequence of entries, in order. */
  function Names(s: seq<Entry>): (r: seq<string>)
    ensures |r| == |s|
    ensures forall i :: 0 <= i < |s| ==> r[i] == s[i].name
  {
    seq(|s|, i requires 0 <= i < |s| => s[i].name)
  }

  /** Some entry of `s` is named `k`: `k in d` for a dict `d`. */
  predicate HasKey(s: seq<Entry>, k: string)
  {
    exists i :: 0 <= i < |s| && s[i].name == k
  }

  /** No two entries share a name: what makes a sequence of entries a dict. */
  predicate UniqueNames(s: seq<Entry>)
  {
    forall i, j :: 0 <= i < j < |s| ==> s[i].name != s[j].name
  }

  /** The index of the first occurrence of `k` in `s`. */
  function FirstIndex(s: seq<string>, k: string): (r: nat)
    requires k in s
    ensures r < |s| && s[r] == k
    ensures forall j :: 0 <= j < r ==> s[j] != k
  {
    if s[0] == k then 0 else 1 + FirstIndex(s[1..], k)
  }

  /** The index of the last occurrence of `k` in `s`. */
  function LastIndex(s: seq<string>, k: string): (r: nat)
    requires k in s
    ensures r < |s| && s[r] == k
    ensures forall j :: r < j < |s| ==> s[j] != k
  {
    if s[|s| - 1] == k then |s| - 1 else LastIndex(s[..|s| - 1], k)
  }

  /** Python's `zip(names, urls)`: pairs by position, cut to the shorter list. */
  function Zip(names: seq<string>, urls: seq<string>): (r: seq<Entry>)
    ensures |r| == Min(|names|, |urls|)
    ensures forall i :: 0 <= i < |r| ==> r[i] == Entry(names[i], urls[i])
  {
    if names == [] || urls == [] then []
    else [Entry(names[0], urls[0])] + Zip(names[1..], urls[1..])
  }

  /**
   * `d[e.name] = e.uri` on a dict: an existing key keeps its position and
   * takes the new value; a new key is appended at the end.
   */
  function Put(d: seq<Entry>, e: Entry): (r: seq<Entry>)
    ensures HasKey(d, e.name) ==> |r| == |d|
    ensures !HasKey(d, e.name) ==> |r| == |d| + 1 && r[|d|] == e
  {
    if d == [] then [e]
    else if d[0].name == e.name then [e] + d[1..]
    else
      assert HasKey(d[1..], e.name) <==> HasKey(d, e.name) by {
        HasKeyFirst(d, e.name);
      }
      [d[0]] + Put(d[1..], e)
  }

  /** Python's `dict(pairs)`: the pairs are stored one after the other. */
  function Dict(pairs: seq<Entry>): (r: seq<Entry>)
    ensures |r| <= |pairs|
  {
    if pairs == [] then []
    else Put(Dict(pairs[..|pairs| - 1]), pairs[|pairs| - 1])
  }

  /** The module-level `lv2_dict = dict(zip(name_list, url_list))`. */
  function BuildCatalog(names: seq<string>, urls: seq<string>): (r: seq<Entry>)
    ensures |r| <= |names| && |r| <= |urls|
  {
    Dict(Zip(names, urls))
  }

  /** Splitting off the first entry of a sequence. */
  lemma HasKeyFirst(s: seq<Entry>, k: string)
    requires s != []
    ensures HasKey(s, k) <==> s[0].name == k || HasKey(s[1..], k)
  {
    if HasKey(s[1..], k) {
      var p :| 0 <= p < |s| - 1 && s[1..][p].name == k;
      assert s[p + 1].name == k;
    }
    if HasKey(s, k) && s[0].name != k {
      var p :| 0 <= p < |s| && s[p].name == k;
      assert s[1..][p - 1].name == k;
    }
  }

  /** Splitting off the last entry of a sequence. */
  lemma HasKeyLast(s: seq<Entry>, k: string)
    requires s != []
    ensures HasKey(s, k) <==> HasKey(s[..|s| - 1], k) || s[|s| - 1].name == k
  {
    if HasKey(s[..|s| - 1], k) {
      var p :| 0 <= p < |s| - 1 && s[..|s| - 1][p].name == k;
      assert s[p].name == k;
    }
  }

  lemma HasKeyNames(s: seq<Entry>, k: string)
    ensures HasKey(s, k) <==> k in Names(s)
  {
    if k in Names(s) {
      var p :| 0 <= p < |s| && Names(s)[p] == k;
      assert s[p].name == k;
    }
  }

  lemma NamesLast(s: seq<Entry>)
    requires s != []
    ensures Names(s) == Names(s[..|s| - 1]) + [s[|s| - 1].name]
  {
  }

  /** A sequence with distinct names, extended at the front by a new name. */
  lemma UniqueCons(x: Entry, s: seq<Entry>)
    requires UniqueNames(s) && !HasKey(s, x.name)
    ensures UniqueNames([x] + s)
  {
    forall i, j | 0 <= i < j < |s| + 1
      ensures ([x] + s)[i].name != ([x] + s)[j].name
    {
      if i == 0 {
        assert ([x] + s)[j] == s[j - 1];
      } else {
        assert ([x] + s)[i] == s[i - 1] && ([x] + s)[j] == s[j - 1];
      }
    }
  }

  /** Appending a name keeps earlier first occurrences; a new name first occurs at the end. */
  lemma {:induction false} FirstIndexAppend(init: seq<string>, x: string, k: string)
    requires k in init || k == x
    ensures k in init + [x]
    ensures FirstIndex(init + [x], k) == if k in init then FirstIndex(init, k) else |init|
  {
    if init != [] && init[0] != k {
      assert (init + [x])[1..] == init[1..] + [x];
      FirstIndexAppend(init[1..], x, k);
    }
  }

  /** Appending a name moves its last occurrence to the end and leaves other names' alone. */
  lemma LastIndexAppend(init: seq<string>, x: string, k: string)
    requires k in init || k == x
    ensures k in init + [x]
    ensures LastIndex(init + [x], k) == if k == x then |init| else LastIndex(init, k)
  {
    assert (init + [x])[..|init|] == init;
  }

  /** `d[e.name] = e.uri` replaces the entry named `e.name` and leaves every other entry where it was. */
  lemma {:induction false} PutAt(d: seq<Entry>, e: Entry, i: nat)
    requires UniqueNames(d) && i < |d|
    ensures i < |Put(d, e)|
    ensures Put(d, e)[i] == if d[i].name == e.name then e else d[i]
  {
    if d[0].name != e.name && i > 0 {
      assert UniqueNames(d[1..]);
      PutAt(d[1..], e, i - 1);
    }
  }

  /** The keys after `d[e.name] = e.uri` are the old keys and `e.name`. */
  lemma {:induction false} PutKeys(d: seq<Entry>, e: Entry, k: string)
    ensures HasKey(Put(d, e), k) <==> HasKey(d, k) || k == e.name
  {
    if d == [] {
      assert Put(d, e)[0] == e;
    } else {
      var r := Put(d, e);
      HasKeyFirst(d, k);
      HasKeyFirst(r, k);
      if d[0].name == e.name {
        assert r[1..] == d[1..];
      } else {
        assert r[1..] == Put(d[1..], e);
        PutKeys(d[1..], e, k);
      }
    }
  }

  /** Storing a new key appends it. */
  lemma {:induction false} PutNew(d: seq<Entry>, e: Entry)
    requires !HasKey(d, e.name)
    ensures Put(d, e) == d + [e]
  {
    if d != [] {
      HasKeyFirst(d, e.name);
      PutNew(d[1..], e);
      assert d == [d[0]] + d[1..];
    }
  }

  /** `d[e.name] = e.uri` keeps the keys of a dict distinct. */
  lemma {:induction false} PutUnique(d: seq<Entry>, e: Entry)
    requires UniqueNames(d)
    ensures UniqueNames(Put(d, e))
  {
    if d != [] {
      assert UniqueNames(d[1..]);
      HasKeyFirst(d, d[0].name);
      if d[0].name == e.name {
        assert !HasKey(d[1..], d[0].name);
        UniqueCons(e, d[1..]);
      } else {
        PutUnique(d[1..], e);
        PutKeys(d[1..], e, d[0].name);
        UniqueCons(d[0], Put(d[1..], e));
      }
    }
  }

  lemma SplitLast<T>(s: seq<T>)
    requires s != []
    ensures s == s[..|s| - 1] + [s[|s| - 1]]
  {
  }

  /** One step of `dict(pairs)`: store the last pair into the dict of the others. */
  lemma DictStep(pairs: seq<Entry>)
    requires pairs != []
    ensures Dict(pairs) == Put(Dict(pairs[..|pairs| - 1]), pairs[|pairs| - 1])
  {
  }

  /** The keys of `dict(pairs)` are pairwise distinct. */
  lemma {:induction false} DictUnique(pairs: seq<Entry>)
    ensures UniqueNames(Dict(pairs))
  {
    if pairs != [] {
      DictUnique(pairs[..|pairs| - 1]);
      DictStep(pairs);
      PutUnique(Dict(pairs[..|pairs| - 1]), pairs[|pairs| - 1]);
    }
  }

  /** The keys of `dict(pairs)` are exactly the names among the pairs. */
  lemma {:induction false} DictKeys(pairs: seq<Entry>, k: string)
    ensures HasKey(Dict(pairs), k) <==> HasKey(pairs, k)
  {
    if pairs != [] {
      var n := |pairs|;
      var init, last := pairs[..n - 1], pairs[n - 1];
      DictStep(pairs);
      DictKeys(init, k);
      PutKeys(Dict(init), last, k);
      HasKeyLast(pairs, k);
    }
  }

  /** The inductive step of `DictValue`, stated without `Dict`. */
  lemma ValueStep(init: seq<Entry>, d: seq<Entry>, last: Entry, p: nat)
    requires UniqueNames(d) && p < |Put(d, last)|
    requires p < |d| && d[p].name != last.name ==>
               d[p].name in Names(init) && d[p] == init[LastIndex(Names(init), d[p].name)]
    ensures Put(d, last)[p].name in Names(init + [last])
    ensures Put(d, last)[p] == (init + [last])[LastIndex(Names(init + [last]), Put(d, last)[p].name)]
  {
    NamesLast(init + [last]);
    assert (init + [last])[..|init|] == init;
    if p < |d| {
      PutAt(d, last, p);
      if d[p].name == last.name {
        LastIndexAppend(Names(init), last.name, last.name);
      } else {
        LastIndexAppend(Names(init), last.name, d[p].name);
      }
    } else {
      LastIndexAppend(Names(init), last.name, last.name);
    }
  }

  /** Each key holds the value of the last pair with that name (last write wins). */
  lemma {:induction false} DictValue(pairs: seq<Entry>, p: nat)
    requires p < |Dict(pairs)|
    ensures Dict(pairs)[p].name in Names(pairs)
    ensures Dict(pairs)[p] == pairs[LastIndex(Names(pairs), Dict(pairs)[p].name)]
  {
    var n := |pairs|;
    var init, last := pairs[..n - 1], pairs[n - 1];
    var d := Dict(init);
    DictStep(pairs);
    DictUnique(init);
    if p < |d| && d[p].name != last.name {
      DictValue(init, p);
    }
    ValueStep(init, d, last, p);
    SplitLast(pairs);
  }

  /** Keys appear in the order in which their names first occur among the pairs. */
  lemma {:induction false} DictOrder(pairs: seq<Entry>, p: nat, q: nat)
    requires p < q < |Dict(pairs)|
    ensures Dict(pairs)[p].name in Names(pairs) && Dict(pairs)[q].name in Names(pairs)
    ensures FirstIndex(Names(pairs), Dict(pairs)[p].name) < FirstIndex(Names(pairs), Dict(pairs)[q].name)
  {
    var n := |pairs|;
    var init, last := pairs[..n - 1], pairs[n - 1];
    var d := Dict(init);
    DictStep(pairs);
    NamesLast(pairs);
    DictUnique(init);
    PutAt(d, last, p);
    assert Dict(pairs)[p].name == d[p].name;
    DictValue(init, p);
    FirstIndexAppend(Names(init), last.name, d[p].name);
    if q < |d| {
      PutAt(d, last, q);
      assert Dict(pairs)[q].name == d[q].name;
      DictOrder(init, p, q);
      FirstIndexAppend(Names(init), last.name, d[q].name);
    } else {
      assert !HasKey(d, last.name);
      assert q == |d| && Dict(pairs)[q] == last;
      DictKeys(init, last.name);
      HasKeyNames(init, last.name);
      FirstIndexAppend(Names(init), last.name, last.name);
    }
  }

  /** When no name repeats, `dict(pairs)` holds every pair, in order. */
  lemma {:induction false} DictOfUnique(pairs: seq<Entry>)
    requires UniqueNames(pairs)
    ensures Dict(pairs) == pairs
  {
    if pairs != [] {
      var n := |pairs|;
      var init := pairs[..n - 1];
      assert UniqueNames(init);
      DictOfUnique(init);
      DictStep(pairs);
      HasKeyLast(pairs, pairs[n - 1].name);
      PutNew(init, pairs[n - 1]);
      SplitLast(pairs);
    }
  }

  lemma NamesZip(names: seq<string>, urls: seq<string>)
    ensures Names(Zip(names, urls)) == names[..Min(|names|, |urls|)]
  {
  }

  /** Every key of the catalog is one of the first min(|names|, |urls|) names, and every such name is a key. */
  lemma CatalogKeys(names: seq<string>, urls: seq<string>, k: string)
    ensures HasKey(BuildCatalog(names, urls), k) <==> k in names[..Min(|names|, |urls|)]
  {
    DictKeys(Zip(names, urls), k);
    HasKeyNames(Zip(names, urls), k);
    NamesZip(names, urls);
  }

  /** A key's uri is `urls[j]`, for the largest index j whose name is that key. */
  lemma CatalogValue(names: seq<string>, urls: seq<string>, p: nat)
    requires p < |BuildCatalog(names, urls)|
    ensures BuildCatalog(names, urls)[p].name in names[..Min(|names|, |urls|)]
    ensures BuildCatalog(names, urls)[p].uri
         == urls[LastIndex(names[..Min(|names|, |urls|)], BuildCatalog(names, urls)[p].name)]
  {
    DictValue(Zip(names, urls), p);
    NamesZip(names, urls);
  }

  /** Keys follow the first occurrence of each name; a repeated name does not move its key. */
  lemma CatalogOrder(names: seq<string>, urls: seq<string>, p: nat, q: nat)
    requires p < q < |BuildCatalog(names, urls)|
    ensures BuildCatalog(names, urls)[p].name in names[..Min(|names|, |urls|)]
    ensures BuildCatalog(names, urls)[q].name in names[..Min(|names|, |urls|)]
    ensures FirstIndex(names[..Min(|names|, |urls|)], BuildCatalog(names, urls)[p].name)
          < FirstIndex(names[..Min(|names|, |urls|)], BuildCatalog(names, urls)[q].name)
  {
    DictOrder(Zip(names, urls), p, q);
    NamesZip(names, urls);
  }

  /** With distinct names, entry i of the catalog is (names[i], urls[i]) for every i below the shorter length. */
  lemma CatalogOfDistinctNames(names: seq<string>, urls: seq<string>)
    requires forall i, j :: 0 <= i < j < Min(|names|, |urls|) ==> names[i] != names[j]
    ensures |BuildCatalog(names, urls)| == Min(|names|, |urls|)
    ensures forall i :: 0 <= i < Min(|names|, |urls|) ==> BuildCatalog(names, urls)[i] == Entry(names[i], urls[i])
  {
    DictOfUnique(Zip(names, urls));
  }
}
