/** Processing ids are content-addressed (src/normalization/fingerprint.py:91-114): what an id says about its files,
    and what that makes of the catalogue that the MERGE theorems assume. */
module NormalizationManifest {
  import opened Cdc
  import opened Ordering
  import opened Normalization
  import opened NormalizationOrder
  import opened NormalizationRun
  import opened NormalizationContract
  import opened MergeInvariant

  /** The digest of a file's bytes, and that of the sorted manifest. */
  datatype Hashing = Hashing(content: seq<Line> -> string, manifest: seq<string> -> string)

  /** No collisions, and content digests of one length. */
  ghost predicate Collisionless(h: Hashing) {
    && (forall a, b :: h.content(a) == h.content(b) ==> a == b)
    && (forall a, b :: |h.content(a)| == |h.content(b)|)
    && (forall a, b :: h.manifest(a) == h.manifest(b) ==> a == b)
  }

  /** The dictionary from logical file id to content digest: of files with one id the last one stays. */
  function Manifest(fs: seq<File>, h: Hashing): (m: map<string, string>)
    ensures forall id :: id in m <==> exists f :: f in fs && f.logicalId == id
  {
    if fs == [] then map[]
    else
      var last := fs[|fs| - 1];
      assert fs == fs[..|fs| - 1] + [last];
      Manifest(fs[..|fs| - 1], h)[last.logicalId := h.content(last.lines)]
  }

  function LogicalIds(fs: seq<File>): seq<string> { Sort(Dedupe(Map(fs, (f: File) => f.logicalId)), StringLe) }

  function Entry(id: string, digest: string): string { id + ":" + digest }

  function Entries(ids: seq<string>, m: map<string, string>): seq<string>
    requires forall id :: id in ids ==> id in m
  {
    seq(|ids|, i requires 0 <= i < |ids| => Entry(ids[i], m[ids[i]]))
  }

  lemma LogicalIdsAre(fs: seq<File>, h: Hashing)
    ensures Sorted(LogicalIds(fs), StringLe) && Distinct(LogicalIds(fs))
    ensures forall id :: id in LogicalIds(fs) <==> id in Manifest(fs, h)
  {
    var ids := Map(fs, (f: File) => f.logicalId);
    StringLeTotalPreorder();
    SortSorted(Dedupe(ids), StringLe);
    SortPermutes(Dedupe(ids), StringLe);
    PermutationDistinct(Dedupe(ids), LogicalIds(fs));
    SortMembers(Dedupe(ids), StringLe);
    forall id ensures id in ids <==> exists f :: f in fs && f.logicalId == id {
      if f :| f in fs && f.logicalId == id {
        var i :| 0 <= i < |fs| && fs[i] == f;
        assert ids[i] == id;
      }
      if id in ids {
        var i :| 0 <= i < |ids| && ids[i] == id;
        assert fs[i] in fs;
      }
    }
  }

  function SortedManifest(fs: seq<File>, h: Hashing): seq<string> {
    LogicalIdsAre(fs, h);
    Entries(LogicalIds(fs), Manifest(fs, h))
  }

  function ProcessingId(fs: seq<File>, h: Hashing): string { "proc_" + h.manifest(SortedManifest(fs, h)) }

  /** One line per logical id, in ascending order: the id, a colon, and the digest of the last file that has it. */
  ghost predicate ManifestLines(lines: seq<string>, ids: seq<string>, fs: seq<File>, h: Hashing) {
    && |lines| == |ids| && (forall id :: id in ids <==> exists f :: f in fs && f.logicalId == id)
    && (forall i, j :: 0 <= i < j < |ids| ==> StringLe(ids[i], ids[j]) && ids[i] != ids[j])
    && forall i :: 0 <= i < |ids| ==>
         exists k :: 0 <= k < |fs| && LastOf(fs, ids[i], k) && lines[i] == ids[i] + ":" + h.content(fs[k].lines)
  }

  ghost predicate LastOf(fs: seq<File>, id: string, k: nat)
    requires k < |fs|
  {
    fs[k].logicalId == id && forall j :: k < j < |fs| ==> fs[j].logicalId != id
  }

  lemma {:induction false} DigestOfLast(fs: seq<File>, h: Hashing, id: string) returns (k: nat)
    requires id in Manifest(fs, h)
    ensures k < |fs| && LastOf(fs, id, k) && Manifest(fs, h)[id] == h.content(fs[k].lines)
  {
    var init, last := fs[..|fs| - 1], fs[|fs| - 1];
    assert fs == init + [last];
    if last.logicalId == id {
      k := |fs| - 1;
    } else {
      k := DigestOfLast(init, h, id);
    }
  }

  lemma LinesAre(fs: seq<File>, h: Hashing)
    ensures ManifestLines(SortedManifest(fs, h), LogicalIds(fs), fs, h)
  {
    var ids, lines := LogicalIds(fs), SortedManifest(fs, h);
    LogicalIdsAre(fs, h);
    forall i | 0 <= i < |ids|
      ensures exists k ::
        0 <= k < |fs| && LastOf(fs, ids[i], k) && lines[i] == ids[i] + ":" + h.content(fs[k].lines)
    {
      assert ids[i] in ids;
      var k := DigestOfLast(fs, h, ids[i]);
    }
    hide LogicalIds;
  }

  /** The loop over the files, then the sorted entries. */
  method ComputeProcessingId(fs: seq<File>, h: Hashing) returns (id: string, lines: seq<string>)
    ensures id == ProcessingId(fs, h) && id == "proc_" + h.manifest(lines)
    ensures exists ids :: ManifestLines(lines, ids, fs, h)
  {
    LinesAre(fs, h);
    var manifest: map<string, string> := map[];
    for i := 0 to |fs|
      invariant manifest == Manifest(fs[..i], h)
    {
      assert fs[..i + 1][..i] == fs[..i];
      manifest := manifest[fs[i].logicalId := h.content(fs[i].lines)];
    }
    FullPrefix(fs);
    LogicalIdsAre(fs, h);
    lines := Entries(LogicalIds(fs), manifest);
    id := "proc_" + h.manifest(lines);
  }

  // ---- What an id determines ----

  /** With digests of one length an entry can be taken apart again. */
  lemma EntryParts(id: string, digest: string, id': string, digest': string)
    requires Entry(id, digest) == Entry(id', digest') && |digest| == |digest'|
    ensures id == id' && digest == digest'
  {
    var e := Entry(id, digest);
    assert |id| == |e| - |digest| - 1 == |id'|;
    assert id == e[..|id|] && id' == e[..|id|];
    assert digest == e[|id| + 1..] && digest' == e[|id| + 1..];
  }

  lemma {:induction false} DigestsOf(fs: seq<File>, h: Hashing, id: string)
    requires id in Manifest(fs, h)
    ensures exists f :: f in fs && f.logicalId == id && Manifest(fs, h)[id] == h.content(f.lines)
  {
    var last := fs[|fs| - 1];
    assert fs == fs[..|fs| - 1] + [last];
    if last.logicalId != id {
      DigestsOf(fs[..|fs| - 1], h, id);
    }
  }

  lemma SameEntries(fs: seq<File>, gs: seq<File>, h: Hashing)
    requires Collisionless(h) && SortedManifest(fs, h) == SortedManifest(gs, h)
    ensures Manifest(fs, h) == Manifest(gs, h)
  {
    var m, n, a, b := Manifest(fs, h), Manifest(gs, h), LogicalIds(fs), LogicalIds(gs);
    LogicalIdsAre(fs, h);
    LogicalIdsAre(gs, h);
    assert |a| == |SortedManifest(fs, h)| == |b|;
    forall i | 0 <= i < |a| ensures a[i] == b[i] && m[a[i]] == n[b[i]] {
      assert a[i] in a && b[i] in b && SortedManifest(fs, h)[i] == SortedManifest(gs, h)[i];
      DigestsOf(fs, h, a[i]);
      DigestsOf(gs, h, b[i]);
      EntryParts(a[i], m[a[i]], b[i], n[b[i]]);
    }
    assert a == b;
    forall id | id in m ensures id in n && m[id] == n[id] {
      assert id in a;
      var i :| 0 <= i < |a| && a[i] == id;
    }
    forall id | id in n ensures id in m {
      assert id in b;
    }
  }

  /** Equal processing ids mean equal manifests, and the other way round, whatever the files. */
  lemma IdIffManifest(fs: seq<File>, gs: seq<File>, h: Hashing)
    requires Collisionless(h)
    ensures ProcessingId(fs, h) == ProcessingId(gs, h) <==> Manifest(fs, h) == Manifest(gs, h)
  {
    if Manifest(fs, h) == Manifest(gs, h) {
      LogicalIdsAre(fs, h);
      LogicalIdsAre(gs, h);
      StringLeTotalPreorder();
      hide LogicalIds, Manifest;
      DistinctSameMembers(LogicalIds(fs), LogicalIds(gs));
      SortedUnique(LogicalIds(fs), LogicalIds(gs), StringLe);
      assert SortedManifest(fs, h) == SortedManifest(gs, h);
    } else if ProcessingId(fs, h) == ProcessingId(gs, h) {
      var a, b := ProcessingId(fs, h), ProcessingId(gs, h);
      assert h.manifest(SortedManifest(fs, h)) == a[5..] && h.manifest(SortedManifest(gs, h)) == b[5..];
      SameEntries(fs, gs, h);
    }
  }

  /** A file's batch hint follows from its logical id. */
  ghost predicate HintsFollow(fs: seq<File>, hintOf: string -> string) {
    forall f :: f in fs ==> f.batchHint == hintOf(f.logicalId)
  }

  lemma SameLogicalId(fs: seq<File>, f: File, g: File)
    requires DistinctIds(fs) && f in fs && g in fs && f.logicalId == g.logicalId
    ensures f == g
  {
    var i :| 0 <= i < |fs| && fs[i] == f;
    var j :| 0 <= j < |fs| && fs[j] == g;
    if i < j {
      assert false;
    } else if j < i {
      assert false;
    }
  }

  lemma SameManifestSameFile(fs: seq<File>, gs: seq<File>, h: Hashing, hintOf: string -> string, f: File)
    requires Collisionless(h) && DistinctIds(fs) && HintsFollow(fs, hintOf) && HintsFollow(gs, hintOf)
    requires Manifest(fs, h) == Manifest(gs, h) && f in fs
    ensures f in gs
  {
    DigestsOf(fs, h, f.logicalId);
    var same :| same in fs && same.logicalId == f.logicalId && Manifest(fs, h)[f.logicalId] == h.content(same.lines);
    SameLogicalId(fs, f, same);
    DigestsOf(gs, h, f.logicalId);
    var g :| g in gs && g.logicalId == f.logicalId && Manifest(gs, h)[f.logicalId] == h.content(g.lines);
    assert g == f;
  }

  lemma ManifestOfMembers(fs: seq<File>, gs: seq<File>, h: Hashing)
    requires DistinctIds(fs) && DistinctIds(gs) && forall f :: f in fs <==> f in gs
    ensures Manifest(fs, h) == Manifest(gs, h)
  {
    forall id | id in Manifest(fs, h) ensures Manifest(fs, h)[id] == Manifest(gs, h)[id] {
      DigestsOf(fs, h, id);
      DigestsOf(gs, h, id);
      var f :| f in fs && f.logicalId == id && Manifest(fs, h)[id] == h.content(f.lines);
      var g :| g in gs && g.logicalId == id && Manifest(gs, h)[id] == h.content(g.lines);
      SameLogicalId(fs, f, g);
    }
  }

  /** Content addressing: of files with distinct logical ids, two runs have one processing id exactly when they were
      given the same files, in whatever order. */
  lemma IdIffFiles(fs: seq<File>, gs: seq<File>, h: Hashing, hintOf: string -> string)
    requires Collisionless(h) && DistinctIds(fs) && DistinctIds(gs) && HintsFollow(fs, hintOf)
    requires HintsFollow(gs, hintOf)
    ensures ProcessingId(fs, h) == ProcessingId(gs, h) <==> multiset(fs) == multiset(gs)
  {
    IdIffManifest(fs, gs, h);
    if ProcessingId(fs, h) == ProcessingId(gs, h) {
      forall f ensures f in fs <==> f in gs {
        if f in fs { SameManifestSameFile(fs, gs, h, hintOf, f); }
        if f in gs { SameManifestSameFile(gs, fs, h, hintOf, f); }
      }
      DistinctFiles(fs);
      DistinctFiles(gs);
      DistinctSameMembers(fs, gs);
    }
    if multiset(fs) == multiset(gs) {
      forall f ensures f in fs <==> f in gs {
        SameMultisetMembers(fs, gs, f);
      }
      ManifestOfMembers(fs, gs, h);
    }
  }

  lemma DistinctFiles(fs: seq<File>)
    requires DistinctIds(fs)
    ensures Distinct(fs)
  {}

  /** Then one processing id names one result. */
  lemma SameIdSameRun(fs: seq<File>, gs: seq<File>, h: Hashing, hintOf: string -> string, rules: Rules, p: Primitives,
                      digest: Digest)
    requires Collisionless(h) && DistinctIds(fs) && DistinctIds(gs) && HintsFollow(fs, hintOf)
    requires HintsFollow(gs, hintOf)
    requires Faithful(digest, rules) && ProcessingId(fs, h) == ProcessingId(gs, h)
    ensures Normalize(fs, rules, p, digest) == Normalize(gs, rules, p, digest)
  {
    IdIffFiles(fs, gs, h, hintOf);
    RunIgnoresFileOrder(fs, gs, rules, p, digest);
  }

  // ---- The catalogue of all runs ----

  /** What the runs accepted, by processing id. */
  function CatalogueOf(runs: seq<seq<File>>, h: Hashing, rules: Rules, p: Primitives, digest: Digest): Catalogue {
    if runs == [] then map[]
    else
      var last := runs[|runs| - 1];
      CatalogueOf(runs[..|runs| - 1], h, rules, p, digest)
        [ProcessingId(last, h) := Normalize(last, rules, p, digest).accepted]
  }

  /** Every entry of the catalogue is what one of the runs accepted. */
  lemma {:induction false} RunOf(runs: seq<seq<File>>, h: Hashing, rules: Rules, p: Primitives, digest: Digest,
                                 pid: string) returns (fs: seq<File>)
    requires pid in CatalogueOf(runs, h, rules, p, digest)
    ensures fs in runs && ProcessingId(fs, h) == pid
    ensures CatalogueOf(runs, h, rules, p, digest)[pid] == Normalize(fs, rules, p, digest).accepted
  {
    hide Normalize, ProcessingId;
    var init, last := runs[..|runs| - 1], runs[|runs| - 1];
    assert runs == init + [last];
    if ProcessingId(last, h) == pid {
      fs := last;
    } else {
      fs := RunOf(init, h, rules, p, digest, pid);
    }
  }

  lemma {:induction false} EveryRunIsListed(runs: seq<seq<File>>, h: Hashing, rules: Rules, p: Primitives,
                                            digest: Digest)
    ensures forall fs :: fs in runs ==> ProcessingId(fs, h) in CatalogueOf(runs, h, rules, p, digest)
  {
    hide Normalize, ProcessingId;
    if runs != [] {
      assert runs == runs[..|runs| - 1] + [runs[|runs| - 1]];
      EveryRunIsListed(runs[..|runs| - 1], h, rules, p, digest);
    }
  }

  /** Any normalization runs form a catalogue: each processing id names the one list that its runs accepted, and the
      lists meet the hypotheses of the MERGE theorems. */
  lemma RunsFormCatalogue(runs: seq<seq<File>>, h: Hashing, hintOf: string -> string, rules: Rules, p: Primitives,
                          digest: Digest)
    requires Collisionless(h) && Faithful(digest, rules) && InjectiveCanon(p.canon) && Strict(rules)
    requires forall fs :: fs in runs ==> DistinctIds(fs) && HintsFollow(fs, hintOf)
    ensures var cat := CatalogueOf(runs, h, rules, p, digest);
      && WellFormed(cat)
      && forall fs :: fs in runs ==>
           ProcessingId(fs, h) in cat && cat[ProcessingId(fs, h)] == Normalize(fs, rules, p, digest).accepted
  {
    hide Normalize, ProcessingId, WellFormed, CatalogueOf;
    var cat := CatalogueOf(runs, h, rules, p, digest);
    EveryRunIsListed(runs, h, rules, p, digest);
    forall fs | fs in runs ensures cat[ProcessingId(fs, h)] == Normalize(fs, rules, p, digest).accepted {
      var gs := RunOf(runs, h, rules, p, digest, ProcessingId(fs, h));
      SameIdSameRun(fs, gs, h, hintOf, rules, p, digest);
    }
    forall pid | pid in cat ensures exists fs :: cat[pid] == Normalize(fs, rules, p, digest).accepted {
      var fs := RunOf(runs, h, rules, p, digest, pid);
    }
    NormalizationFeedsMerge(cat, rules, p, digest);
  }

  // ---- Files that share a logical id ----

  /** Of two files with one logical id only the last one counts, and the order decides which, unless they agree. */
  lemma LastFileCounts(a: File, b: File, h: Hashing)
    requires Collisionless(h) && a.logicalId == b.logicalId
    ensures ProcessingId([a, b], h) == ProcessingId([b], h)
    ensures ProcessingId([a, b], h) == ProcessingId([b, a], h) <==> a.lines == b.lines
  {
    assert [a, b][..1] == [a] && [b, a][..1] == [b] && [a][..0] == [] && [b][..0] == [];
    assert Manifest([a], h) == map[a.logicalId := h.content(a.lines)];
    assert Manifest([b], h) == map[b.logicalId := h.content(b.lines)];
    assert Manifest([a, b], h) == Manifest([b], h) && Manifest([b, a], h) == Manifest([a], h);
    assert Manifest([a], h)[a.logicalId] == h.content(a.lines) && Manifest([b], h)[a.logicalId] == h.content(b.lines);
    IdIffManifest([a, b], [b], h);
    IdIffManifest([a, b], [b, a], h);
  }

  /** So one processing id can name two lists: a file with an acceptable event, shadowed by an empty one. */
  lemma ShadowedEventIsLost(c: Change, id: string, h: Hashing, rules: Rules, p: Primitives, digest: Digest)
    requires Collisionless(h) && rules(c).None?
    ensures var a, b := File(id, "", [Parsed(c, "")]), File(id, "", []);
      && ProcessingId([a, b], h) == ProcessingId([b], h)
      && Normalize([a, b], rules, p, digest).accepted != Normalize([b], rules, p, digest).accepted
  {
    var a, b := File(id, "", [Parsed(c, "")]), File(id, "", []);
    LastFileCounts(a, b, h);
    ReadTwo(a, b, c);
    var r := ReadRecords([a, b])[0];
    OneValid(r, rules);
    OneAccepted(r, p);
    NothingAccepted(p);
  }

  lemma ReadTwo(a: File, b: File, c: Change)
    requires a.lines == [Parsed(c, "")] && b.lines == []
    ensures ReadRecords([b]) == []
    ensures |ReadRecords([a, b])| == 1 && ReadRecords([a, b])[0].change == c
  {
    assert [a, b][..1] == [a] && [a][..0] == [] && [b][..0] == [];
    assert ReadRecords([]) == [] && FilledAll([]) == 0;
    assert RecordsIn(b, 0, 0) == [] && RecordsIn(a, 0, 0) == [];
    assert |RecordsIn(a, 1, 0)| == 1 && RecordsIn(a, 1, 0)[0].change == c;
    assert ReadRecords([a]) == RecordsIn(a, 1, 0);
    assert RecordsIn(b, 0, FilledAll([a])) == [];
  }

  lemma OneValid(r: Record, rules: Rules)
    requires rules(r.change).None?
    ensures ValidRecords([r], rules) == [r] && ValidRecords([], rules) == []
  {
    FilterShort(r, r, (q: Record) => rules(q.change).None?);
  }

  lemma OneAccepted(r: Record, p: Primitives)
    ensures Accepted(Enrich([r], p)) != []
  {
    var es := Enrich([r], p);
    var e := es[0];
    assert es == [e];
    ProvenanceOrder(r, r, r);
    assert e in es && Retained(es, e) && !Collides(es, e);
    AcceptedIff(es, e.event);
  }

  lemma NothingAccepted(p: Primitives)
    ensures Accepted(Enrich([], p)) == []
  {
    if Accepted(Enrich([], p)) != [] {
      var e := Accepted(Enrich([], p))[0];
      AcceptedIff(Enrich([], p), e);
    }
  }
}
