/**
 Context assembly (context_providers.rs): a stable sort of the fragments and a
 greedy fill of the prompt.
 */
module ContextAssembly {
  import opened Common
  import opened Unicode
  import Json
  import LexOrder

  datatype Fragment = Fragment(
    id: string, text: string, stable: bool, priority: int,
    source: Option<string>, cacheHint: Option<string>, metadata: map<string, Json.Value>)

  /** A section is a kept fragment; its text is trimmed. */
  type Section = Fragment

  datatype Bundle = Bundle(
    prompt: string, sections: seq<Section>, stableHash: string,
    sources: map<string, string>, totalChars: nat, omittedSectionIds: seq<string>)

  // ---- Trimming ------------------------------------------------------------------------

  function TrimStart(s: string): string {
    if s != [] && IsWhitespace(s[0]) then TrimStart(s[1..]) else s
  }

  function TrimEnd(s: string): string {
    if s != [] && IsWhitespace(s[|s| - 1]) then TrimEnd(s[..|s| - 1]) else s
  }

  function Trim(s: string): string {
    TrimEnd(TrimStart(s))
  }

  // ---- The sort key ----------------------------------------------------------------------

  datatype Key = Key(priority: int, stable: bool, units: seq<nat>)

  function KeyOf(f: Fragment): Key {
    Key(f.priority, f.stable, Utf16(f.id))
  }

  /** Low priority first, stable before volatile, then the ids by UTF-16 code units. */
  predicate KeyLess(a: Key, b: Key) {
    || a.priority < b.priority
    || (a.priority == b.priority && a.stable && !b.stable)
    || (a.priority == b.priority && a.stable == b.stable && LexOrder.Less(a.units, b.units))
  }

  lemma KeyOrder(a: Key, b: Key)
    ensures !KeyLess(a, a)
    ensures a == b || KeyLess(a, b) || KeyLess(b, a)
    ensures KeyLess(a, b) ==> !KeyLess(b, a)
  {
    LexOrder.Irreflexive(a.units);
    LexOrder.Total(a.units, b.units);
    if KeyLess(a, b) && KeyLess(b, a) {
      LexOrder.Transitive(a.units, b.units, a.units);
    }
  }

  lemma KeyTransitive(a: Key, b: Key, c: Key)
    requires KeyLess(a, b) && KeyLess(b, c)
    ensures KeyLess(a, c)
  {
    if LexOrder.Less(a.units, b.units) && LexOrder.Less(b.units, c.units) {
      LexOrder.Transitive(a.units, b.units, c.units);
    }
  }

  // ---- The stable sort ---------------------------------------------------------------------

  function Insert(f: Fragment, fs: seq<Fragment>): seq<Fragment> {
    if fs == [] || !KeyLess(KeyOf(fs[0]), KeyOf(f)) then [f] + fs else [fs[0]] + Insert(f, fs[1..])
  }

  function StableSort(fs: seq<Fragment>): seq<Fragment> {
    if fs == [] then [] else Insert(fs[0], StableSort(fs[1..]))
  }

  predicate Sorted(fs: seq<Fragment>) {
    forall i, j :: 0 <= i < j < |fs| ==> !KeyLess(KeyOf(fs[j]), KeyOf(fs[i]))
  }

  /** The fragments with one key, in order. */
  function WithKey(fs: seq<Fragment>, k: Key): seq<Fragment> {
    if fs == [] then []
    else (if KeyOf(fs[0]) == k then [fs[0]] else []) + WithKey(fs[1..], k)
  }

  lemma ConsSorted(f: Fragment, fs: seq<Fragment>)
    requires Sorted(fs) && (fs != [] ==> !KeyLess(KeyOf(fs[0]), KeyOf(f)))
    ensures Sorted([f] + fs)
  {
    hide KeyLess, KeyOf;
    forall j | 0 <= j < |fs| ensures !KeyLess(KeyOf(fs[j]), KeyOf(f)) {
      var head, k, kf := KeyOf(fs[0]), KeyOf(fs[j]), KeyOf(f);
      assert j > 0 ==> !KeyLess(k, head);
      KeyOrder(head, k);
      KeyOrder(kf, head);
      if KeyLess(k, kf) {
        if KeyLess(head, k) { KeyTransitive(head, k, kf); }
      }
    }
    var all := [f] + fs;
    forall i, j | 0 <= i < j < |all| ensures !KeyLess(KeyOf(all[j]), KeyOf(all[i])) {
      if i > 0 { assert all[i] == fs[i - 1] && all[j] == fs[j - 1]; }
    }
  }

  lemma {:induction false} InsertSorts(f: Fragment, fs: seq<Fragment>)
    requires Sorted(fs)
    ensures Sorted(Insert(f, fs)) && Insert(f, fs) != []
    ensures Insert(f, fs)[0] == f || (fs != [] && Insert(f, fs)[0] == fs[0])
  {
    hide KeyLess, KeyOf;
    if fs == [] || !KeyLess(KeyOf(fs[0]), KeyOf(f)) {
      ConsSorted(f, fs);
    } else {
      var rest := fs[1..];
      InsertSorts(f, rest);
      assert rest != [] ==> rest[0] == fs[1];
      KeyOrder(KeyOf(fs[0]), KeyOf(f));
      ConsSorted(fs[0], Insert(f, rest));
    }
  }

  lemma {:induction false} InsertKeepsKeys(f: Fragment, fs: seq<Fragment>, k: Key)
    ensures WithKey(Insert(f, fs), k) == WithKey([f] + fs, k)
  {
    hide KeyLess, KeyOf;
    assert ([f] + fs)[1..] == fs;
    if fs != [] && KeyLess(KeyOf(fs[0]), KeyOf(f)) {
      KeyOrder(KeyOf(fs[0]), KeyOf(f));
      InsertKeepsKeys(f, fs[1..], k);
      assert ([f] + fs[1..])[1..] == fs[1..] && ([fs[0]] + Insert(f, fs[1..]))[1..] == Insert(f, fs[1..]);
    }
  }

  /** The sort orders the fragments and keeps those with equal keys in their input order. */
  lemma {:induction false} SortIsStable(fs: seq<Fragment>, k: Key)
    ensures Sorted(StableSort(fs)) && WithKey(StableSort(fs), k) == WithKey(fs, k)
  {
    hide KeyLess, KeyOf, Insert;
    if fs != [] {
      SortIsStable(fs[1..], k);
      InsertSorts(fs[0], StableSort(fs[1..]));
      InsertKeepsKeys(fs[0], StableSort(fs[1..]), k);
      assert ([fs[0]] + StableSort(fs[1..]))[1..] == StableSort(fs[1..]);
    }
  }

  lemma {:induction false} WithKeyHas(fs: seq<Fragment>, k: Key, i: nat)
    requires i < |fs| && KeyOf(fs[i]) == k
    ensures WithKey(fs, k) != []
  {
    if i > 0 { WithKeyHas(fs[1..], k, i - 1); }
  }

  lemma {:induction false} WithKeyNone(fs: seq<Fragment>, k: Key)
    requires forall i :: 0 <= i < |fs| ==> KeyOf(fs[i]) != k
    ensures WithKey(fs, k) == []
  {
    if fs != [] { WithKeyNone(fs[1..], k); }
  }

  lemma SmallerHeadIsMissing(a: seq<Fragment>, b: seq<Fragment>)
    requires a != [] && b != [] && Sorted(b) && KeyLess(KeyOf(a[0]), KeyOf(b[0]))
    ensures WithKey(b, KeyOf(a[0])) == [] && WithKey(a, KeyOf(a[0])) != []
  {
    hide KeyLess, KeyOf;
    var k := KeyOf(a[0]);
    WithKeyHas(a, k, 0);
    forall i | 0 <= i < |b| ensures KeyOf(b[i]) != k {
      assert i > 0 ==> !KeyLess(KeyOf(b[i]), KeyOf(b[0]));
      KeyOrder(k, KeyOf(b[0]));
    }
    WithKeyNone(b, k);
  }

  /** There is only one stable ordering: any sort with these two properties gives the same list. */
  lemma {:induction false} StableOrderIsUnique(a: seq<Fragment>, b: seq<Fragment>)
    requires Sorted(a) && Sorted(b)
    requires forall k :: WithKey(a, k) == WithKey(b, k)
    ensures a == b
  {
    hide KeyLess, KeyOf;
    if a == [] || b == [] {
      if b != [] {
        WithKeyHas(b, KeyOf(b[0]), 0);
      }
      if a != [] {
        WithKeyHas(a, KeyOf(a[0]), 0);
      }
    } else {
      SameHead(a, b);
      forall k ensures WithKey(a[1..], k) == WithKey(b[1..], k) {
        var head := if KeyOf(a[0]) == k then [a[0]] else [];
        assert head + WithKey(a[1..], k) == WithKey(a, k) == WithKey(b, k) == head + WithKey(b[1..], k);
        assert (head + WithKey(a[1..], k))[|head|..] == WithKey(a[1..], k);
        assert (head + WithKey(b[1..], k))[|head|..] == WithKey(b[1..], k);
      }
      StableOrderIsUnique(a[1..], b[1..]);
      assert a == [a[0]] + a[1..] && b == [b[0]] + b[1..];
    }
  }

  lemma SameHead(a: seq<Fragment>, b: seq<Fragment>)
    requires a != [] && b != [] && Sorted(a) && Sorted(b)
    requires forall k :: WithKey(a, k) == WithKey(b, k)
    ensures a[0] == b[0]
  {
    hide KeyLess, KeyOf, Sorted;
    var ka, kb := KeyOf(a[0]), KeyOf(b[0]);
    KeyOrder(ka, kb);
    if KeyLess(ka, kb) {
      SmallerHeadIsMissing(a, b);
    } else if KeyLess(kb, ka) {
      SmallerHeadIsMissing(b, a);
    }
    assert WithKey(a, ka) == WithKey(b, ka);
    assert ka == kb ==> WithKey(a, ka)[0] == a[0] && WithKey(b, ka)[0] == b[0];
  }

  lemma {:induction false} CountWithKey(fs: seq<Fragment>, k: Key, f: Fragment)
    ensures multiset(WithKey(fs, k))[f] == if KeyOf(f) == k then multiset(fs)[f] else 0
  {
    if fs != [] {
      CountWithKey(fs[1..], k, f);
      assert fs == [fs[0]] + fs[1..];
    }
  }

  predicate DistinctKeys(fs: seq<Fragment>) {
    forall i, j :: 0 <= i < j < |fs| ==>
      fs[i].priority != fs[j].priority || fs[i].stable != fs[j].stable || fs[i].id != fs[j].id
  }

  lemma {:induction false} AtMostOneWithKey(fs: seq<Fragment>, k: Key)
    requires DistinctKeys(fs)
    ensures |WithKey(fs, k)| <= 1
  {
    if fs != [] {
      AtMostOneWithKey(fs[1..], k);
      if KeyOf(fs[0]) == k {
        forall i | 0 <= i < |fs[1..]| ensures KeyOf(fs[1..][i]) != k {
          assert fs[1..][i] == fs[i + 1];
          if Utf16(fs[0].id) == Utf16(fs[i + 1].id) { Utf16Injective(fs[0].id, fs[i + 1].id); }
        }
        WithKeyNone(fs[1..], k);
      }
    }
  }

  lemma SameSingleton(a: seq<Fragment>, b: seq<Fragment>)
    requires |a| <= 1 && multiset(a) == multiset(b)
    ensures a == b
  {
    assert |multiset(a)| == |a| && |multiset(b)| == |b|;
    if a != [] {
      assert a[0] in multiset(b);
    }
  }

  /** When no two fragments share priority, stability and id, their order does not matter. */
  lemma SortIgnoresInputOrder(fs: seq<Fragment>, gs: seq<Fragment>)
    requires DistinctKeys(fs) && multiset(fs) == multiset(gs)
    ensures StableSort(fs) == StableSort(gs)
  {
    hide KeyOf, StableSort, DistinctKeys, Sorted;
    forall k ensures Sorted(StableSort(fs)) && Sorted(StableSort(gs)) && WithKey(StableSort(fs), k) == WithKey(StableSort(gs), k) {
      SortIsStable(fs, k);
      SortIsStable(gs, k);
      AtMostOneWithKey(fs, k);
      forall f ensures multiset(WithKey(fs, k))[f] == multiset(WithKey(gs, k))[f] {
        CountWithKey(fs, k, f);
        CountWithKey(gs, k, f);
      }
      assert multiset(WithKey(fs, k)) == multiset(WithKey(gs, k));
      SameSingleton(WithKey(fs, k), WithKey(gs, k));
    }
    SortIsStable(fs, Key(0, false, []));
    SortIsStable(gs, Key(0, false, []));
    StableOrderIsUnique(StableSort(fs), StableSort(gs));
  }

  // ---- The greedy fill ------------------------------------------------------------------------

  const SEPARATOR := "\n\n"

  function Join(parts: seq<string>): string {
    if parts == [] then ""
    else if |parts| == 1 then parts[0]
    else Join(parts[..|parts| - 1]) + SEPARATOR + parts[|parts| - 1]
  }

  /** The elements flagged `want`. */
  function Pick<T>(xs: seq<T>, flags: seq<bool>, want: bool): seq<T>
    requires |xs| == |flags|
  {
    if xs == [] then []
    else
      var n := |xs| - 1;
      Pick(xs[..n], flags[..n], want) + (if flags[n] == want then [xs[n]] else [])
  }

  predicate Fits(max: Option<nat>, n: nat) {
    max.Some? ==> n <= max.value
  }

  /** Which texts are kept: each in turn, if the prompt so far with it appended fits. */
  function Greedy(max: Option<nat>, texts: seq<string>): (flags: seq<bool>)
    ensures |flags| == |texts|
  {
    if texts == [] then []
    else
      var before := texts[..|texts| - 1];
      var flags := Greedy(max, before);
      flags + [Fits(max, |Join(Pick(before, flags, true) + [texts[|texts| - 1]])|)]
  }

  lemma JoinSnoc(parts: seq<string>, t: string)
    ensures Join(parts + [t]) == if parts == [] then t else Join(parts) + "\n\n" + t
    ensures |Join(parts + [t])| == |Join(parts)| + (if parts == [] then 0 else 2) + |t|
  {
    assert (parts + [t])[..|parts|] == parts;
  }

  /** The length of the prompt with `t` appended only grows with the prompt. */
  lemma JoinGrows(parts: seq<string>, s: string, t: string)
    ensures |Join(parts + [t])| <= |Join(parts + [s] + [t])| && |Join(parts)| <= |Join(parts + [s])|
  {
    JoinSnoc(parts, t);
    JoinSnoc(parts, s);
    JoinSnoc(parts + [s], t);
  }

  lemma PickSnoc<T>(xs: seq<T>, flags: seq<bool>, want: bool, x: T, flag: bool)
    requires |xs| == |flags|
    ensures Pick(xs + [x], flags + [flag], want) == Pick(xs, flags, want) + if flag == want then [x] else []
  {
    assert (xs + [x])[..|xs|] == xs && (flags + [flag])[..|flags|] == flags;
  }

  lemma {:induction false} GreedyFits(max: Option<nat>, texts: seq<string>)
    ensures Fits(max, |Join(Pick(texts, Greedy(max, texts), true))|)
  {
    hide Join, Pick;
    if texts == [] {
      PickNothing(texts, Greedy(max, texts));
      JoinNothing();
    } else {
      var n := |texts| - 1;
      var before, last := texts[..n], texts[n];
      var flags, flag := Greedy(max, before), Greedy(max, texts)[n];
      GreedyFits(max, before);
      PickSnoc(before, flags, true, last, flag);
      assert texts == before + [last] && Greedy(max, texts) == flags + [flag];
      assert Pick(before, flags, true) + [] == Pick(before, flags, true);
    }
  }

  lemma JoinNothing()
    ensures Join([]) == ""
  {
  }

  /** No omitted text would fit even after the final prompt. */
  lemma {:induction false} OmittedNeverFits(max: Option<nat>, texts: seq<string>, i: nat)
    requires i < |texts| && !Greedy(max, texts)[i]
    ensures !Fits(max, |Join(Pick(texts, Greedy(max, texts), true) + [texts[i]])|)
  {
    hide Join, Pick;
    var n := |texts| - 1;
    var before, last := texts[..n], texts[n];
    var flags, flag := Greedy(max, before), Greedy(max, texts)[n];
    var kept := Pick(before, flags, true);
    PickSnoc(before, flags, true, last, flag);
    assert texts == before + [last];
    assert Greedy(max, texts) == flags + [flag];
    if i == n {
      assert kept + [] == kept;
    } else {
      assert !flags[i] && before[i] == texts[i];
      OmittedNeverFits(max, before, i);
      JoinGrows(kept, last, texts[i]);
      assert kept + [] == kept;
    }
  }

  /** The first place where `a` and `b` differ, `a` keeps and `b` omits. */
  predicate KeepsFirst(a: seq<bool>, b: seq<bool>) {
    exists i :: 0 <= i < |a| && i < |b| && a[..i] == b[..i] && a[i] && !b[i]
  }

  /**
   The fill is lexicographically maximal: any other choice of texts whose prompt fits omits
   an earlier one that the fill keeps.
   */
  lemma {:induction false} GreedyIsMaximal(max: Option<nat>, texts: seq<string>, other: seq<bool>)
    requires |other| == |texts| && Fits(max, |Join(Pick(texts, other, true))|)
    ensures other == Greedy(max, texts) || KeepsFirst(Greedy(max, texts), other)
  {
    hide Join, Pick, KeepsFirst;
    if texts != [] {
      var n := |texts| - 1;
      var before, last := texts[..n], texts[n];
      var g, o := Greedy(max, before), other[..n];
      assert texts == before + [last] && other == o + [other[n]];
      PickSnoc(before, o, true, last, other[n]);
      var kept := Pick(before, o, true);
      JoinGrows(kept, last, "");
      assert kept + [] == kept;
      GreedyIsMaximal(max, before, o);
      FirstDifferenceStays(g, o, Greedy(max, texts)[n], other[n]);
    }
  }

  lemma FirstDifferenceStays(g: seq<bool>, o: seq<bool>, x: bool, y: bool)
    requires |g| == |o|
    ensures KeepsFirst(g, o) ==> KeepsFirst(g + [x], o + [y])
    ensures g == o && x && !y ==> KeepsFirst(g + [x], o + [y])
  {
    var g1, o1 := g + [x], o + [y];
    if KeepsFirst(g, o) {
      var i :| 0 <= i < |g| && i < |o| && g[..i] == o[..i] && g[i] && !o[i];
      assert g1[..i] == g[..i] && o1[..i] == o[..i] && g1[i] && !o1[i];
    }
    if g == o && x && !y {
      var i := |g|;
      assert g1[..i] == g && o1[..i] == o && g1[i] && !o1[i];
    }
  }

  // ---- The bundle -----------------------------------------------------------------------------

  /** The fragments with text left after trimming, in order. */
  function Candidates(fs: seq<Fragment>): seq<Section> {
    if fs == [] then []
    else
      var last := fs[|fs| - 1];
      Candidates(fs[..|fs| - 1])
      + (if Trim(last.text) == "" then [] else [last.(text := Trim(last.text))])
  }

  function Texts(ss: seq<Section>): (r: seq<string>)
    ensures |r| == |ss| && forall i :: 0 <= i < |ss| ==> r[i] == ss[i].text
  {
    if ss == [] then [] else Texts(ss[..|ss| - 1]) + [ss[|ss| - 1].text]
  }

  function Ids(ss: seq<Section>): (r: seq<string>)
    ensures |r| == |ss| && forall i :: 0 <= i < |ss| ==> r[i] == ss[i].id
  {
    if ss == [] then [] else Ids(ss[..|ss| - 1]) + [ss[|ss| - 1].id]
  }

  /** A later section with the same id overwrites the source of an earlier one. */
  function SourcesOf(ss: seq<Section>): map<string, string> {
    if ss == [] then map[]
    else
      var before, last := SourcesOf(ss[..|ss| - 1]), ss[|ss| - 1];
      if last.source.Some? then before[last.id := last.source.value] else before
  }

  function StableSections(ss: seq<Section>): seq<Section> {
    if ss == [] then []
    else
      var last := ss[|ss| - 1];
      StableSections(ss[..|ss| - 1]) + (if last.stable then [last] else [])
  }

  function MetadataOf(s: Section): Json.Value {
    var base := map["id" := Json.Text(s.id), "text" := Json.Text(s.text), "stable" := Json.Bool(s.stable)];
    var sourced := if s.source.Some? && s.source.value != "" then base["source" := Json.Text(s.source.value)] else base;
    var hinted := if s.cacheHint.Some? then sourced["cache_hint" := Json.Text(s.cacheHint.value)] else sourced;
    Json.Object(if s.metadata != map[] then hinted["metadata" := Json.Object(s.metadata)] else hinted)
  }

  function MetadataOfAll(ss: seq<Section>): seq<Json.Value> {
    if ss == [] then [] else MetadataOfAll(ss[..|ss| - 1]) + [MetadataOf(ss[|ss| - 1])]
  }

  /** The hash of the canonical text of a list of values, or why there is none. */
  type Hash = seq<Json.Value> -> Result<string>

  function StableHash(ss: seq<Section>, hash: Hash): Result<string> {
    match hash(MetadataOfAll(StableSections(ss)))
    case Ok(h) => Ok(h)
    case Err(e) => Err("context sections cannot be hashed: " + e)
  }

  /** The choices made for a list of candidates. */
  function KeptOf(max: Option<nat>, cs: seq<Section>): seq<Section> {
    Pick(cs, Greedy(max, Texts(cs)), true)
  }

  function OmittedOf(max: Option<nat>, cs: seq<Section>): seq<Section> {
    Pick(cs, Greedy(max, Texts(cs)), false)
  }

  function Assembled(max: Option<nat>, fragments: seq<Fragment>, hash: Hash): Result<Bundle> {
    var cs := Candidates(StableSort(fragments));
    var kept := KeptOf(max, cs);
    var prompt := Join(Texts(kept));
    match StableHash(kept, hash)
    case Err(e) => Err(e)
    case Ok(h) => Ok(Bundle(prompt, kept, h, SourcesOf(kept), |prompt|, Ids(OmittedOf(max, cs))))
  }

  lemma {:induction false} TextsOfPick(cs: seq<Section>, flags: seq<bool>, want: bool)
    requires |cs| == |flags|
    ensures Texts(Pick(cs, flags, want)) == Pick(Texts(cs), flags, want)
  {
    if cs != [] {
      var n := |cs| - 1;
      TextsOfPick(cs[..n], flags[..n], want);
      assert Texts(cs)[..n] == Texts(cs[..n]);
      TextsSnoc(Pick(cs[..n], flags[..n], want), cs[n]);
      var front := Pick(cs[..n], flags[..n], want);
      assert front + [] == front && Texts(front) + [] == Texts(front);
    }
  }

  lemma TextsSnoc(ss: seq<Section>, s: Section)
    ensures Texts(ss + [s]) == Texts(ss) + [s.text] && Ids(ss + [s]) == Ids(ss) + [s.id]
  {
  }

  /** One more candidate: what the loop body does to the choices. */
  lemma ChoiceStep(max: Option<nat>, cs: seq<Section>, c: Section)
    ensures var fits := Fits(max, |Join(Texts(KeptOf(max, cs)) + [c.text])|);
            && KeptOf(max, cs + [c]) == KeptOf(max, cs) + (if fits then [c] else [])
            && OmittedOf(max, cs + [c]) == OmittedOf(max, cs) + (if fits then [] else [c])
  {
    hide Join, Pick;
    var texts := Texts(cs);
    TextsSnoc(cs, c);
    assert (texts + [c.text])[..|texts|] == texts;
    var flags, fits := Greedy(max, texts), Greedy(max, texts + [c.text])[|texts|];
    TextsOfPick(cs, flags, true);
    PickSnoc(cs, flags, true, c, fits);
    PickSnoc(cs, flags, false, c, fits);
  }

  lemma SourcesSnoc(ss: seq<Section>, s: Section)
    ensures SourcesOf(ss + [s]) == if s.source.Some? then SourcesOf(ss)[s.id := s.source.value] else SourcesOf(ss)
  {
    assert (ss + [s])[..|ss|] == ss;
  }

  /** `assemble_context_fragments`: the loop makes the greedy choice. */
  method Assemble(max: Option<nat>, fragments: seq<Fragment>, hash: Hash) returns (r: Result<Bundle>)
    ensures r == Assembled(max, fragments, hash)
  {
    hide StableSort, KeptOf, OmittedOf, Join, StableHash, SourcesOf, Trim, Candidates, Texts, Ids, Greedy, Pick;
    var sorted := StableSort(fragments);
    var promptParts: seq<string>, totalChars: nat := [], 0;
    var sections: seq<Section>, sources: map<string, string>, omitted: seq<string> := [], map[], [];
    NoChoices(max);
    var i := 0;
    assert sorted[..0] == [];
    while i < |sorted|
      invariant 0 <= i <= |sorted|
      invariant sections == KeptOf(max, Candidates(sorted[..i]))
      invariant omitted == Ids(OmittedOf(max, Candidates(sorted[..i])))
      invariant promptParts == Texts(sections) && totalChars == |Join(promptParts)| && sources == SourcesOf(sections)
    {
      var fragment := sorted[i];
      var text := Trim(fragment.text);
      ghost var before := Candidates(sorted[..i]);
      CandidatesStep(sorted, i);
      if text != "" {
        var section := fragment.(text := text);
        var separatorChars := if promptParts != [] then 2 else 0;
        var candidateLen := totalChars + separatorChars + |text|;
        ChoiceStep(max, before, section);
        JoinSnoc(promptParts, text);
        if max.Some? && candidateLen > max.value {
          TextsSnoc(OmittedOf(max, before), section);
          omitted := omitted + [fragment.id];
        } else {
          TextsSnoc(sections, section);
          SourcesSnoc(sections, section);
          if fragment.source.Some? {
            sources := sources[fragment.id := fragment.source.value];
          }
          promptParts, totalChars, sections := promptParts + [text], candidateLen, sections + [section];
        }
      }
      i := i + 1;
    }
    assert sorted[..i] == sorted;
    var h := StableHash(sections, hash);
    match h
    case Err(e) => r := Err(e);
    case Ok(stableHash) => r := Ok(Bundle(Join(promptParts), sections, stableHash, sources, totalChars, omitted));
  }

  lemma CandidatesStep(fs: seq<Fragment>, i: nat)
    requires i < |fs|
    ensures var f, before := fs[i], Candidates(fs[..i]);
            Candidates(fs[..i + 1]) == if Trim(f.text) == "" then before else before + [f.(text := Trim(f.text))]
  {
    hide Trim;
    assert fs[..i + 1][..i] == fs[..i];
  }

  lemma NoChoices(max: Option<nat>)
    ensures Candidates([]) == [] && Texts([]) == [] && Ids([]) == []
    ensures KeptOf(max, []) == [] == OmittedOf(max, []) && Join([]) == "" && SourcesOf([]) == map[]
  {
  }

  // ---- What the bundle promises -----------------------------------------------------------------

  lemma {:induction false} TrimStartCuts(s: string) returns (i: nat)
    ensures i <= |s| && TrimStart(s) == s[i..]
    ensures forall k :: 0 <= k < i ==> IsWhitespace(s[k])
    ensures i < |s| ==> !IsWhitespace(s[i])
  {
    hide IsWhitespace;
    if s != [] && IsWhitespace(s[0]) {
      var j := TrimStartCuts(s[1..]);
      i := j + 1;
      assert forall k :: 1 <= k < |s| ==> s[k] == s[1..][k - 1];
    } else {
      i := 0;
    }
  }

  lemma {:induction false} TrimEndCuts(s: string)
    ensures TrimEnd(s) == "" || !IsWhitespace(TrimEnd(s)[|TrimEnd(s)| - 1])
    ensures |TrimEnd(s)| <= |s| && TrimEnd(s) == s[..|TrimEnd(s)|]
    ensures forall k :: |TrimEnd(s)| <= k < |s| ==> IsWhitespace(s[k])
  {
    if s != [] && IsWhitespace(s[|s| - 1]) {
      TrimEndCuts(s[..|s| - 1]);
    }
  }

  /** Trimming cuts whitespace and nothing else, on both sides, and leaves none at the ends. */
  lemma TrimCuts(s: string) returns (i: nat, j: nat)
    ensures i <= j <= |s| && Trim(s) == s[i..j]
    ensures forall k :: 0 <= k < i || j <= k < |s| ==> IsWhitespace(s[k])
    ensures i < j ==> !IsWhitespace(s[i]) && !IsWhitespace(s[j - 1])
    ensures Trim(s) != "" <==> NonBlank(s)
  {
    hide TrimStart, TrimEnd, IsWhitespace;
    i := TrimStartCuts(s);
    var t := TrimStart(s);
    TrimEndCuts(t);
    j := i + |TrimEnd(t)|;
    assert forall k :: j <= k < |s| ==> s[k] == t[k - i];
    assert i < j ==> TrimEnd(t)[j - 1 - i] == s[j - 1];
  }

  /** Nothing is lost or invented by the sort. */
  lemma {:induction false} SortKeepsFragments(fs: seq<Fragment>)
    ensures multiset(StableSort(fs)) == multiset(fs)
  {
    if fs != [] {
      SortKeepsFragments(fs[1..]);
      InsertAdds(fs[0], StableSort(fs[1..]));
      assert fs == [fs[0]] + fs[1..];
    }
  }

  lemma {:induction false} InsertAdds(f: Fragment, fs: seq<Fragment>)
    ensures multiset(Insert(f, fs)) == multiset{f} + multiset(fs)
  {
    if fs != [] && KeyLess(KeyOf(fs[0]), KeyOf(f)) {
      InsertAdds(f, fs[1..]);
      assert fs == [fs[0]] + fs[1..];
    }
  }

  lemma {:induction false} PickPartitions<T>(xs: seq<T>, flags: seq<bool>)
    requires |xs| == |flags|
    ensures multiset(Pick(xs, flags, true)) + multiset(Pick(xs, flags, false)) == multiset(xs)
  {
    hide Pick;
    if xs == [] {
      PickNothing(xs, flags);
    } else {
      var n := |xs| - 1;
      PickPartitions(xs[..n], flags[..n]);
      var kept, dropped := Pick(xs[..n], flags[..n], true), Pick(xs[..n], flags[..n], false);
      PickSnoc(xs[..n], flags[..n], true, xs[n], flags[n]);
      PickSnoc(xs[..n], flags[..n], false, xs[n], flags[n]);
      BagSnoc(kept, dropped, xs[..n], xs[n]);
      assert xs == xs[..n] + [xs[n]] && flags == flags[..n] + [flags[n]];
      assert kept + [] == kept && dropped + [] == dropped;
    }
  }

  lemma PickNothing<T>(xs: seq<T>, flags: seq<bool>)
    requires xs == [] && |flags| == 0
    ensures Pick(xs, flags, true) == [] == Pick(xs, flags, false)
  {
  }

  lemma BagSnoc<T>(a: seq<T>, b: seq<T>, c: seq<T>, x: T)
    requires multiset(a) + multiset(b) == multiset(c)
    ensures multiset(a + [x]) + multiset(b) == multiset(c + [x]) == multiset(a) + multiset(b + [x])
  {
  }

  /**
   The prompt is the kept texts joined, `total_chars` is its length, and it is within the limit;
   every non-blank fragment, in sorted order, is kept or omitted exactly once.
   */
  lemma BundleAccount(max: Option<nat>, fragments: seq<Fragment>, hash: Hash)
    requires Assembled(max, fragments, hash).Ok?
    ensures var b := Assembled(max, fragments, hash).value;
            var cs := Candidates(StableSort(fragments));
            && b.totalChars == |b.prompt| && b.prompt == Join(Texts(b.sections)) && Fits(max, |b.prompt|)
            && exists flags: seq<bool> :: |flags| == |cs|
                 && b.sections == Pick(cs, flags, true)
                 && b.omittedSectionIds == Ids(Pick(cs, flags, false))
                 && multiset(b.sections) + multiset(Pick(cs, flags, false)) == multiset(cs)
  {
    hide Greedy, Pick, Join, StableSort, Candidates;
    var cs := Candidates(StableSort(fragments));
    var flags := Greedy(max, Texts(cs));
    GreedyFits(max, Texts(cs));
    TextsOfPick(cs, flags, true);
    PickPartitions(cs, flags);
  }

  /** No omitted fragment would fit even after the final prompt. */
  lemma NoOmittedFragmentFits(max: Option<nat>, fragments: seq<Fragment>, hash: Hash, c: Section)
    requires Assembled(max, fragments, hash).Ok? && c in OmittedOf(max, Candidates(StableSort(fragments)))
    ensures var b := Assembled(max, fragments, hash).value;
            max.Some? && |b.prompt| + (if b.sections == [] then 0 else 2) + |c.text| > max.value
  {
    hide Greedy, Pick, Join, StableSort, Candidates;
    var cs := Candidates(StableSort(fragments));
    var texts := Texts(cs);
    var flags := Greedy(max, texts);
    var i := PickedIndex(cs, flags, false, c);
    OmittedNeverFits(max, texts, i);
    TextsOfPick(cs, flags, true);
    JoinSnoc(Texts(KeptOf(max, cs)), c.text);
  }

  lemma {:induction false} PickedIndex<T>(xs: seq<T>, flags: seq<bool>, want: bool, x: T) returns (i: nat)
    requires |xs| == |flags| && x in Pick(xs, flags, want)
    ensures i < |xs| && xs[i] == x && flags[i] == want
  {
    var n := |xs| - 1;
    if flags[n] == want && xs[n] == x {
      i := n;
    } else {
      i := PickedIndex(xs[..n], flags[..n], want, x);
    }
  }

  /** With distinct sort keys the bundle does not depend on the order of the fragments. */
  lemma BundleIgnoresInputOrder(max: Option<nat>, fs: seq<Fragment>, gs: seq<Fragment>, hash: Hash)
    requires DistinctKeys(fs) && multiset(fs) == multiset(gs)
    ensures Assembled(max, fs, hash) == Assembled(max, gs, hash)
  {
    hide StableSort;
    SortIgnoresInputOrder(fs, gs);
  }

  /** Section `k` is the last kept one that names a source for its id. */
  predicate LastSource(ss: seq<Section>, id: string, k: nat) {
    && k < |ss| && ss[k].id == id && ss[k].source.Some?
    && forall j :: k < j < |ss| ==> ss[j].id != id || ss[j].source.None?
  }

  /** The sources are those of the kept sections; for a repeated id, the last one. */
  lemma {:induction false} SourcesAreTheLast(ss: seq<Section>, id: string) returns (k: nat)
    ensures id in SourcesOf(ss) ==> LastSource(ss, id, k) && ss[k].source == Some(SourcesOf(ss)[id])
    ensures id !in SourcesOf(ss) ==> forall j :: 0 <= j < |ss| ==> ss[j].id != id || ss[j].source.None?
  {
    k := 0;
    if ss != [] {
      var n := |ss| - 1;
      var before := ss[..n];
      k := SourcesAreTheLast(before, id);
      if ss[n].id == id && ss[n].source.Some? {
        k := n;
      } else {
        assert forall j :: 0 <= j < n ==> before[j] == ss[j];
      }
    }
  }

  // ---- Order and hash of the sections -------------------------------------------------------------

  /** Low priority first; at the same priority stable before volatile; then the ids by UTF-16 code units. */
  predicate InOrder(f: Fragment, g: Fragment) {
    || f.priority < g.priority
    || (f.priority == g.priority && f.stable && !g.stable)
    || (f.priority == g.priority && f.stable == g.stable && (f.id == g.id || LexOrder.Less(Utf16(f.id), Utf16(g.id))))
  }

  predicate AllInOrder(fs: seq<Fragment>) {
    forall i, j :: 0 <= i < j < |fs| ==> InOrder(fs[i], fs[j])
  }

  lemma NotLessIsInOrder(f: Fragment, g: Fragment)
    requires !KeyLess(KeyOf(g), KeyOf(f))
    ensures InOrder(f, g)
  {
    LexOrder.Total(Utf16(f.id), Utf16(g.id));
    if Utf16(f.id) == Utf16(g.id) { Utf16Injective(f.id, g.id); }
  }

  lemma SortedIsInOrder(fs: seq<Fragment>)
    ensures AllInOrder(StableSort(fs))
  {
    hide StableSort, KeyLess, KeyOf, InOrder;
    SortIsStable(fs, Key(0, false, []));
    var sorted := StableSort(fs);
    forall i, j | 0 <= i < j < |sorted| ensures InOrder(sorted[i], sorted[j]) {
      NotLessIsInOrder(sorted[i], sorted[j]);
    }
  }

  predicate Increasing(at: seq<nat>, n: nat) {
    (forall i :: 0 <= i < |at| ==> at[i] < n) && forall i, j :: 0 <= i < j < |at| ==> at[i] < at[j]
  }

  /** The positions of the fragments that are not blank, in order, and no others. */
  predicate NonBlankAt(fs: seq<Fragment>, at: seq<nat>) {
    Increasing(at, |fs|) && forall k :: 0 <= k < |fs| ==> (k in at <==> NonBlank(fs[k].text))
  }

  lemma NonBlankAtStep(fs: seq<Fragment>, before: seq<nat>)
    requires fs != [] && NonBlankAt(fs[..|fs| - 1], before)
    ensures NonBlankAt(fs, if NonBlank(fs[|fs| - 1].text) then before + [|fs| - 1] else before)
  {
    hide NonBlank;
    var n := |fs| - 1;
    var at := if NonBlank(fs[n].text) then before + [n] else before;
    assert Increasing(at, |fs|);
    assert n !in before;
    forall k | 0 <= k < |fs| ensures k in at <==> NonBlank(fs[k].text) {
      if k < n { assert fs[..n][k] == fs[k]; } else if at != before { assert at[|before|] == n; }
    }
  }

  /** The candidates are exactly the fragments that are not blank, in order, with their texts trimmed. */
  lemma {:induction false} CandidatesAre(fs: seq<Fragment>) returns (at: seq<nat>)
    ensures NonBlankAt(fs, at) && |Candidates(fs)| == |at|
    ensures forall i :: 0 <= i < |at| ==> at[i] < |fs| && Candidates(fs)[i] == fs[at[i]].(text := Trim(fs[at[i]].text))
  {
    hide Trim, NonBlank, Candidates, NonBlankAt;
    at := [];
    if fs == [] {
      NoCandidates();
    } else {
      var n := |fs| - 1;
      var before := CandidatesAre(fs[..n]);
      var _, _ := TrimCuts(fs[n].text);
      NonBlankAtStep(fs, before);
      CandidatesStep(fs, n);
      assert fs[..n + 1] == fs;
      at := if NonBlank(fs[n].text) then before + [n] else before;
    }
  }

  lemma NoCandidates()
    ensures Candidates([]) == [] && NonBlankAt([], [])
  {
  }

  lemma {:induction false} PickedPositions<T>(xs: seq<T>, flags: seq<bool>, want: bool) returns (at: seq<nat>)
    requires |xs| == |flags|
    ensures |at| == |Pick(xs, flags, want)| && Increasing(at, |xs|)
    ensures forall i :: 0 <= i < |at| ==> Pick(xs, flags, want)[i] == xs[at[i]]
  {
    hide Pick;
    at := [];
    if xs == [] {
      PickNothing(xs, flags);
    } else {
      var n := |xs| - 1;
      var before := PickedPositions(xs[..n], flags[..n], want);
      PickSnoc(xs[..n], flags[..n], want, xs[n], flags[n]);
      assert xs == xs[..n] + [xs[n]] && flags == flags[..n] + [flags[n]];
      var kept := Pick(xs[..n], flags[..n], want);
      if flags[n] == want {
        at := before + [n];
        assert forall i :: 0 <= i < |before| ==> (kept + [xs[n]])[i] == xs[at[i]];
      } else {
        at := before;
        assert kept + [] == kept;
      }
    }
  }

  /** The sections of a bundle come in the order of priority, stability and id. */
  lemma SectionsAreInOrder(max: Option<nat>, fragments: seq<Fragment>, hash: Hash)
    requires Assembled(max, fragments, hash).Ok?
    ensures AllInOrder(Assembled(max, fragments, hash).value.sections)
  {
    hide StableSort, Candidates, Greedy, Pick, Join, InOrder, Trim;
    var sorted := StableSort(fragments);
    var cs := Candidates(sorted);
    SortedIsInOrder(fragments);
    var at := CandidatesAre(sorted);
    var picked := PickedPositions(cs, Greedy(max, Texts(cs)), true);
    var kept := KeptOf(max, cs);
    forall i, j | 0 <= i < j < |kept| ensures InOrder(kept[i], kept[j]) {
      var p, q := picked[i], picked[j];
      assert p < q && at[p] < at[q];
      assert InOrder(sorted[at[p]], sorted[at[q]]);
      OrderIgnoresText(sorted[at[p]], sorted[at[q]], kept[i], kept[j]);
    }
  }

  lemma OrderIgnoresText(f: Fragment, g: Fragment, s: Section, t: Section)
    requires InOrder(f, g) && s.(text := "") == f.(text := "") && t.(text := "") == g.(text := "")
    ensures InOrder(s, t)
  {
  }

  /** The positions of the stable sections, in order, and no others. */
  predicate StableAt(ss: seq<Section>, at: seq<nat>) {
    && Increasing(at, |ss|)
    && (forall i :: 0 <= i < |at| ==> ss[at[i]].stable)
    && (forall k :: 0 <= k < |ss| && ss[k].stable ==> k in at)
  }

  lemma StableAtStep(ss: seq<Section>, before: seq<nat>)
    requires ss != [] && StableAt(ss[..|ss| - 1], before)
    ensures StableAt(ss, if ss[|ss| - 1].stable then before + [|ss| - 1] else before)
  {
    var n := |ss| - 1;
    var at := if ss[n].stable then before + [n] else before;
    assert Increasing(at, |ss|);
    forall i | 0 <= i < |at| ensures ss[at[i]].stable {
      if i < |before| { assert ss[..n][before[i]].stable; }
    }
    forall k | 0 <= k < |ss| && ss[k].stable ensures k in at {
      if k < n { assert ss[..n][k].stable; } else { assert at[|before|] == n; }
    }
  }

  lemma {:induction false} StableSectionsAre(ss: seq<Section>) returns (at: seq<nat>)
    ensures StableAt(ss, at) && |StableSections(ss)| == |at|
    ensures forall i :: 0 <= i < |at| ==> at[i] < |ss| && StableSections(ss)[i] == ss[at[i]]
  {
    hide StableSections, StableAt;
    at := [];
    StableStep(ss);
    if ss != [] {
      var n := |ss| - 1;
      var before := StableSectionsAre(ss[..n]);
      at := if ss[n].stable then before + [n] else before;
      StableAtStep(ss, before);
    }
  }

  lemma StableStep(ss: seq<Section>)
    ensures ss == [] ==> StableSections(ss) == [] && StableAt(ss, [])
    ensures ss != [] ==>
              var n := |ss| - 1;
              StableSections(ss) == if ss[n].stable then StableSections(ss[..n]) + [ss[n]] else StableSections(ss[..n])
  {
  }

  /** The metadata of a section names everything but its priority; an empty source counts as none. */
  lemma MetadataNames(s: Section)
    ensures var m := MetadataOf(s);
            && m.Object? && m.fields.Keys <= {"id", "text", "stable", "source", "cache_hint", "metadata"}
            && "id" in m.fields && m.fields["id"] == Json.Text(s.id)
            && "text" in m.fields && m.fields["text"] == Json.Text(s.text)
            && "stable" in m.fields && m.fields["stable"] == Json.Bool(s.stable)
            && ("source" in m.fields <==> s.source.Some? && s.source.value != "")
            && ("source" in m.fields ==> m.fields["source"] == Json.Text(s.source.value))
            && ("cache_hint" in m.fields <==> s.cacheHint.Some?)
            && ("cache_hint" in m.fields ==> m.fields["cache_hint"] == Json.Text(s.cacheHint.value))
            && ("metadata" in m.fields <==> s.metadata != map[])
            && ("metadata" in m.fields ==> m.fields["metadata"] == Json.Object(s.metadata))
  {
    FieldNamesDiffer();
  }

  lemma FieldNamesDiffer()
    ensures "id" != "text" && "id" != "stable" && "id" != "source" && "id" != "cache_hint" && "id" != "metadata"
    ensures "text" != "stable" && "text" != "source" && "text" != "cache_hint" && "text" != "metadata"
    ensures "stable" != "source" && "stable" != "cache_hint" && "stable" != "metadata"
    ensures "source" != "cache_hint" && "source" != "metadata" && "cache_hint" != "metadata"
  {
    assert |"id"| == 2 && |"text"| == 4 && |"stable"| == 6 && |"source"| == 6 && |"cache_hint"| == 10 && |"metadata"| == 8;
    assert "stable"[1] != "source"[1];
  }

  lemma {:induction false} MetadataInOrder(ss: seq<Section>)
    ensures |MetadataOfAll(ss)| == |ss|
    ensures forall i :: 0 <= i < |ss| ==> MetadataOfAll(ss)[i] == MetadataOf(ss[i])
  {
    hide MetadataOf;
    if ss != [] { MetadataInOrder(ss[..|ss| - 1]); }
  }

  /**
   The stable hash is the hash of the metadata of exactly the kept stable sections, in order; a
   bundle is refused exactly when these cannot be hashed.
   */
  lemma HashCoversStableSections(max: Option<nat>, fragments: seq<Fragment>, hash: Hash) returns (at: seq<nat>, hashed: seq<Json.Value>)
    ensures var kept := KeptOf(max, Candidates(StableSort(fragments)));
            && StableAt(kept, at) && |hashed| == |at|
            && (forall i :: 0 <= i < |at| ==> hashed[i] == MetadataOf(kept[at[i]]))
    ensures Assembled(max, fragments, hash).Ok? <==> hash(hashed).Ok?
    ensures Assembled(max, fragments, hash).Ok? ==> Assembled(max, fragments, hash).value.stableHash == hash(hashed).value
    ensures Assembled(max, fragments, hash).Err? ==>
              Assembled(max, fragments, hash).error == "context sections cannot be hashed: " + hash(hashed).error
  {
    hide StableSort, Candidates, KeptOf, OmittedOf, MetadataOf, Join, StableSections, MetadataOfAll, SourcesOf;
    var kept := KeptOf(max, Candidates(StableSort(fragments)));
    at := StableSectionsAre(kept);
    hashed := MetadataOfAll(StableSections(kept));
    MetadataInOrder(StableSections(kept));
  }

  /** So bundles with the same kept stable sections have the same hash, whatever their volatile ones. */
  lemma VolatileSectionsDoNotCount(ss: seq<Section>, tt: seq<Section>, hash: Hash)
    requires StableSections(ss) == StableSections(tt)
    ensures StableHash(ss, hash) == StableHash(tt, hash)
  {
  }
}
