/** The persistent tables of one tenant: documents, pages, chunks, sections, their full-text
    indexes, and the chunk vectors kept in a second database. Row ids come from counters
    that only grow. A transaction commits as a whole or leaves no trace. */
module TenantStore {
  import opened Options

  datatype PageRow = PageRow(doc: string, num: int, text: string)
  datatype ChunkRow = ChunkRow(doc: string, pageId: nat, pageNum: int, idx: nat, path: string, title: string, text: string)
  /** A section whose start page may be absent. */
  datatype SectionRow = SectionRow(doc: string, path: string, title: string, start: Option<int>, end: Option<int>)
  datatype VectorRow = VectorRow(doc: string, text: string)
  /** Primary key of a vector row. */
  datatype VectorKey = VectorKey(pageId: nat, idx: nat)

  /** The tables of the metadata database. Documents map to their file hash. */
  datatype Meta = Meta(
    docs: map<string, Option<string>>,
    pages: map<nat, PageRow>, pagesFts: map<nat, string>, nextPage: nat,
    chunks: map<nat, ChunkRow>, chunksFts: map<nat, string>, nextChunk: nat,
    sections: map<nat, SectionRow>, nextSection: nat,
    fragments: map<string, string>, facts: map<nat, string>, nextFact: nat)

  const EMPTY := Meta(map[], map[], map[], 1, map[], map[], 1, map[], 1, map[], map[], 1)

  type Vectors = map<VectorKey, VectorRow>

  // ---------- effects of committed transactions ----------

  /** Only the columns passed are written; those of a new row are empty otherwise. */
  function SavedDocument(m: Meta, id: string, hash: Option<Option<string>>): Meta
  {
    var stored := if id in m.docs then m.docs[id] else None;
    m.(docs := m.docs[id := if hash.Some? then hash.value else stored])
  }

  /** A page with text is indexed, unless the index insert fails, which is only logged. */
  function SavedPage(m: Meta, row: PageRow, indexed: bool): Meta
  {
    m.(pages := m.pages[m.nextPage := row],
       pagesFts := if row.text != "" && indexed then m.pagesFts[m.nextPage := row.text] else m.pagesFts,
       nextPage := m.nextPage + 1)
  }

  function SavedChunk(m: Meta, row: ChunkRow, indexed: bool): Meta
  {
    m.(chunks := m.chunks[m.nextChunk := row],
       chunksFts := if row.text != "" && indexed then m.chunksFts[m.nextChunk := row.text] else m.chunksFts,
       nextChunk := m.nextChunk + 1)
  }

  function SavedChunks(m: Meta, rows: seq<ChunkRow>, indexed: seq<bool>): Meta
    requires |rows| == |indexed|
  {
    if rows == [] then m
    else
      var k := |rows| - 1;
      SavedChunk(SavedChunks(m, rows[..k], indexed[..k]), rows[k], indexed[k])
  }

  /** Same document, path and start page; an absent start page equals nothing. */
  predicate SameSection(a: SectionRow, b: SectionRow)
  {
    a.doc == b.doc && a.path == b.path && a.start.Some? && a.start == b.start
  }

  function SavedSection(m: Meta, row: SectionRow): Meta
  {
    m.(sections := (map k | k in m.sections && !SameSection(m.sections[k], row) :: m.sections[k])[m.nextSection := row],
       nextSection := m.nextSection + 1)
  }

  function PageIdsOf(pages: map<nat, PageRow>, doc: string): set<nat>
  {
    set k | k in pages && pages[k].doc == doc
  }

  function ChunkIdsOf(chunks: map<nat, ChunkRow>, doc: string): set<nat>
  {
    set k | k in chunks && chunks[k].doc == doc
  }

  function PagesWithout(pages: map<nat, PageRow>, doc: string): map<nat, PageRow>
  {
    map k | k in pages && pages[k].doc != doc :: pages[k]
  }

  function ChunksWithout(chunks: map<nat, ChunkRow>, doc: string): map<nat, ChunkRow>
  {
    map k | k in chunks && chunks[k].doc != doc :: chunks[k]
  }

  function SectionsWithout(sections: map<nat, SectionRow>, doc: string): map<nat, SectionRow>
  {
    map k | k in sections && sections[k].doc != doc :: sections[k]
  }

  /** An index without the rows whose id is one of `gone`. */
  function IndexWithout(index: map<nat, string>, gone: set<nat>): map<nat, string>
  {
    map k | k in index && k !in gone :: index[k]
  }

  /** A table keyed by `K` that records only the document of each row. */
  function OwnersWithout<K>(owners: map<K, string>, doc: string): map<K, string>
  {
    map k | k in owners && owners[k] != doc :: owners[k]
  }

  /** The index rows go first: they are found through the rows they belong to. */
  function IndexRowsDeleted(m: Meta, doc: string): Meta
  {
    m.(pagesFts := IndexWithout(m.pagesFts, PageIdsOf(m.pages, doc)),
       chunksFts := IndexWithout(m.chunksFts, ChunkIdsOf(m.chunks, doc)))
  }

  function RowsDeleted(m: Meta, doc: string): Meta
  {
    m.(chunks := ChunksWithout(m.chunks, doc),
       pages := PagesWithout(m.pages, doc),
       sections := SectionsWithout(m.sections, doc),
       fragments := OwnersWithout(m.fragments, doc),
       facts := OwnersWithout(m.facts, doc),
       docs := m.docs - {doc})
  }

  function Deleted(m: Meta, doc: string): Meta
  {
    RowsDeleted(IndexRowsDeleted(m, doc), doc)
  }

  function KeyOf(row: ChunkRow): VectorKey { VectorKey(row.pageId, row.idx) }

  function VectorOf(row: ChunkRow): VectorRow { VectorRow(row.doc, row.text) }

  /** INSERT OR REPLACE of the rows, in order. */
  function StoredVectors(v: Vectors, rows: seq<ChunkRow>): Vectors
  {
    if rows == [] then v
    else StoredVectors(v, rows[..|rows| - 1])[KeyOf(rows[|rows| - 1]) := VectorOf(rows[|rows| - 1])]
  }

  function WithoutDocument(v: Vectors, doc: string): Vectors
  {
    map k | k in v && v[k].doc != doc :: v[k]
  }

  // ---------- the metadata database ----------

  class TenantMetadataDB {
    var docs: map<string, Option<string>>
    var pages: map<nat, PageRow>
    var pagesFts: map<nat, string>
    var nextPage: nat
    var chunks: map<nat, ChunkRow>
    var chunksFts: map<nat, string>
    var nextChunk: nat
    var sections: map<nat, SectionRow>
    var nextSection: nat
    var fragments: map<string, string>
    var facts: map<nat, string>
    var nextFact: nat

    ghost function State(): Meta
      reads this
    {
      Meta(docs, pages, pagesFts, nextPage, chunks, chunksFts, nextChunk,
           sections, nextSection, fragments, facts, nextFact)
    }

    constructor ()
      ensures State() == EMPTY
    {
      docs := map[];
      pages, pagesFts, nextPage := map[], map[], 1;
      chunks, chunksFts, nextChunk := map[], map[], 1;
      sections, nextSection := map[], 1;
      fragments, facts, nextFact := map[], map[], 1;
    }

    /** Insert, or update of the columns passed: `hash` is None when the hash is not. */
    method SaveDocument(id: string, hash: Option<Option<string>>)
      modifies this
      ensures State() == SavedDocument(old(State()), id, hash)
      ensures hash.Some? ==> docs == old(docs)[id := hash.value]
      ensures hash.None? ==> docs == if id in old(docs) then old(docs) else old(docs)[id := None]
    {
      if hash.Some? {
        docs := docs[id := hash.value];
      } else if id !in docs {
        docs := docs[id := None];
      }
    }

    method GetDocumentByHash(hash: string) returns (found: Option<string>)
      ensures found.Some? ==> found.value in docs && docs[found.value] == Some(hash)
      ensures found.None? ==> forall d :: d in docs ==> docs[d] != Some(hash)
    {
      if d :| d in docs && docs[d] == Some(hash) {
        return Some(d);
      }
      return None;
    }

    method SavePage(doc: string, num: int, text: string, indexed: bool) returns (id: nat)
      modifies this
      ensures id == old(nextPage)
      ensures State() == SavedPage(old(State()), PageRow(doc, num, text), indexed)
      ensures pages == old(pages)[id := PageRow(doc, num, text)]
      ensures pagesFts == if text != "" && indexed then old(pagesFts)[id := text] else old(pagesFts)
    {
      id := nextPage;
      pages := pages[id := PageRow(doc, num, text)];
      if text != "" && indexed {
        pagesFts := pagesFts[id := text];
      }
      nextPage := nextPage + 1;
    }

    /** One chunk in its own transaction; `fails` makes it raise before the commit. */
    method SaveChunk(row: ChunkRow, indexed: bool, fails: bool) returns (raised: bool)
      modifies this
      ensures raised == fails
      ensures State() == if fails then old(State()) else SavedChunk(old(State()), row, indexed)
      ensures !fails ==> chunks == old(chunks)[old(nextChunk) := row]
      ensures !fails ==>
        chunksFts == if row.text != "" && indexed then old(chunksFts)[old(nextChunk) := row.text] else old(chunksFts)
    {
      if fails {
        return true;
      }
      var id := nextChunk;
      chunks := chunks[id := row];
      if row.text != "" && indexed {
        chunksFts := chunksFts[id := row.text];
      }
      nextChunk := nextChunk + 1;
      return false;
    }

    /** A batch in one transaction: row `failAt` raises, and then nothing is kept. */
    method SaveChunks(rows: seq<ChunkRow>, indexed: seq<bool>, failAt: nat) returns (raised: bool, ids: seq<nat>)
      requires |rows| == |indexed|
      modifies this
      ensures raised == (failAt < |rows|)
      ensures raised ==> State() == old(State())
      ensures !raised ==> State() == SavedChunks(old(State()), rows, indexed)
      ensures !raised ==> |ids| == |rows| && forall k :: 0 <= k < |ids| ==> ids[k] == old(nextChunk) + k
    {
      var table, index, next := chunks, chunksFts, nextChunk;
      ids := [];
      for k := 0 to |rows|
        invariant State() == old(State()) && k <= failAt
        invariant old(State()).(chunks := table, chunksFts := index, nextChunk := next) ==
                  SavedChunks(old(State()), rows[..k], indexed[..k])
        invariant next == old(nextChunk) + k && |ids| == k
        invariant forall j :: 0 <= j < k ==> ids[j] == old(nextChunk) + j
      {
        if k == failAt {
          return true, [];
        }
        assert rows[..k + 1][..k] == rows[..k] && indexed[..k + 1][..k] == indexed[..k];
        table := table[next := rows[k]];
        if rows[k].text != "" && indexed[k] {
          index := index[next := rows[k].text];
        }
        ids := ids + [next];
        next := next + 1;
      }
      assert rows[..|rows|] == rows && indexed[..|rows|] == indexed;
      chunks, chunksFts, nextChunk := table, index, next;
      return false, ids;
    }

    method SaveStructureIndex(row: SectionRow) returns (id: nat)
      modifies this
      ensures id == old(nextSection)
      ensures State() == SavedSection(old(State()), row)
      ensures id in sections && sections[id] == row
      ensures forall k :: k in sections && k != id ==> k in old(sections) && sections[k] == old(sections)[k]
      ensures forall k :: k in old(sections) && k != id ==>
        (k !in sections <==> old(sections)[k].doc == row.doc && old(sections)[k].path == row.path
                             && row.start.Some? && old(sections)[k].start == row.start)
    {
      id := nextSection;
      sections := map k | k in sections && !SameSection(sections[k], row) :: sections[k];
      sections := sections[id := row];
      nextSection := nextSection + 1;
    }

    method DeleteIndexRows(doc: string)
      modifies this
      ensures State() == IndexRowsDeleted(old(State()), doc)
    {
      pagesFts := IndexWithout(pagesFts, PageIdsOf(pages, doc));
      chunksFts := IndexWithout(chunksFts, ChunkIdsOf(chunks, doc));
    }

    method DeleteRows(doc: string)
      modifies this
      ensures State() == RowsDeleted(old(State()), doc)
    {
      chunks := ChunksWithout(chunks, doc);
      pages := PagesWithout(pages, doc);
      sections := SectionsWithout(sections, doc);
      fragments := OwnersWithout(fragments, doc);
      facts := OwnersWithout(facts, doc);
      docs := docs - {doc};
    }

    /** One transaction; on failure nothing is deleted and false is returned. */
    method DeleteDocument(doc: string, fails: bool) returns (ok: bool)
      modifies this
      ensures ok == !fails
      ensures State() == if fails then old(State()) else Deleted(old(State()), doc)
    {
      if fails {
        return false;
      }
      DeleteIndexRows(doc);
      DeleteRows(doc);
      return true;
    }
  }

  // ---------- the vector database ----------

  class TenantVectorDB {
    var l2Chunks: Vectors

    constructor ()
      ensures l2Chunks == map[]
    {
      l2Chunks := map[];
    }

    /** One vector. An error is logged and swallowed: the caller cannot tell. */
    method StoreL2Chunk(row: ChunkRow, fails: bool)
      modifies this
      ensures l2Chunks == if fails then old(l2Chunks) else old(l2Chunks)[KeyOf(row) := VectorOf(row)]
    {
      if !fails {
        l2Chunks := l2Chunks[KeyOf(row) := VectorOf(row)];
      }
    }

    /** A batch in one transaction; on failure nothing is stored and it raises. */
    method StoreL2Chunks(rows: seq<ChunkRow>, fails: bool) returns (raised: bool)
      modifies this
      ensures raised == (fails && rows != [])
      ensures l2Chunks == if raised then old(l2Chunks) else StoredVectors(old(l2Chunks), rows)
    {
      if rows == [] {
        return false;
      }
      if fails {
        return true;
      }
      var table := l2Chunks;
      for k := 0 to |rows|
        invariant table == StoredVectors(old(l2Chunks), rows[..k]) && l2Chunks == old(l2Chunks)
      {
        assert rows[..k + 1][..k] == rows[..k];
        table := table[KeyOf(rows[k]) := VectorOf(rows[k])];
      }
      assert rows[..|rows|] == rows;
      l2Chunks := table;
      return false;
    }

    method DeleteDocVectors(doc: string, fails: bool) returns (ok: bool)
      modifies this
      ensures ok == !fails
      ensures l2Chunks == if fails then old(l2Chunks) else WithoutDocument(old(l2Chunks), doc)
      ensures ok ==> forall v :: v in l2Chunks <==> v in old(l2Chunks) && old(l2Chunks)[v].doc != doc
      ensures forall v :: v in l2Chunks ==> l2Chunks[v] == old(l2Chunks)[v]
    {
      if fails {
        return false;
      }
      l2Chunks := map k | k in l2Chunks && l2Chunks[k].doc != doc :: l2Chunks[k];
      return true;
    }
  }

  // ---------- runs over both databases ----------

  /** Both databases, and for every page id ever issued the document it was issued for. */
  datatype System = System(meta: Meta, vectors: Vectors, issued: map<nat, string>)

  const FRESH := System(EMPTY, map[], map[])

  /** A committed transaction. A failed one changes nothing and needs no entry. */
  datatype Op =
    | SaveDocument(id: string, hash: Option<Option<string>>)
    | SavePage(page: PageRow, indexed: bool)
    | SaveChunks(rows: seq<ChunkRow>, flags: seq<bool>)
    | SaveSection(section: SectionRow)
    | DeleteDocument(doc: string)
    | StoreVectors(vectorRows: seq<ChunkRow>)
    | DeleteVectors(doc: string)

  /** Ingestion stores vectors only under page ids it was given for that very document. */
  predicate Allowed(s: System, op: Op)
  {
    match op
    case SaveChunks(rows, flags) => |rows| == |flags|
    case StoreVectors(rows) =>
      forall k :: 0 <= k < |rows| ==> rows[k].pageId in s.issued && s.issued[rows[k].pageId] == rows[k].doc
    case _ => true
  }

  function Apply(s: System, op: Op): System
    requires Allowed(s, op)
  {
    match op
    case SaveDocument(id, hash) => s.(meta := SavedDocument(s.meta, id, hash))
    case SavePage(page, indexed) =>
      s.(meta := SavedPage(s.meta, page, indexed), issued := s.issued[s.meta.nextPage := page.doc])
    case SaveChunks(rows, flags) => s.(meta := SavedChunks(s.meta, rows, flags))
    case SaveSection(row) => s.(meta := SavedSection(s.meta, row))
    case DeleteDocument(doc) => s.(meta := Deleted(s.meta, doc))
    case StoreVectors(rows) => s.(vectors := StoredVectors(s.vectors, rows))
    case DeleteVectors(doc) => s.(vectors := WithoutDocument(s.vectors, doc))
  }

  /** `t` is reached from `s` by the operations. */
  ghost predicate Runs(s: System, ops: seq<Op>, t: System)
    decreases |ops|
  {
    if ops == [] then s == t
    else Allowed(s, ops[0]) && Runs(Apply(s, ops[0]), ops[1..], t)
  }

  // ---------- what every reachable state satisfies ----------

  /** Each index row belongs to a live row and holds its text. */
  ghost predicate IndexesAgree(m: Meta)
  {
    && (forall k :: k in m.pagesFts ==> k in m.pages && m.pagesFts[k] == m.pages[k].text != "")
    && (forall k :: k in m.chunksFts ==> k in m.chunks && m.chunksFts[k] == m.chunks[k].text != "")
  }

  ghost predicate IdsBelowCounters(m: Meta)
  {
    && (forall k :: k in m.pages ==> k < m.nextPage)
    && (forall k :: k in m.chunks ==> k < m.nextChunk)
    && (forall k :: k in m.sections ==> k < m.nextSection)
  }

  /** (document, path, start page) identifies a section, where the start page is present. */
  ghost predicate SectionsUnique(m: Meta)
  {
    forall j, k :: j in m.sections && k in m.sections && j != k ==> !SameSection(m.sections[j], m.sections[k])
  }

  /** Live pages and vector rows agree with the documents their ids were issued for. */
  ghost predicate IssuedFaithfully(s: System)
  {
    && (forall k :: k in s.issued <==> 1 <= k < s.meta.nextPage)
    && (forall k :: k in s.meta.pages ==> k in s.issued && s.issued[k] == s.meta.pages[k].doc)
    && (forall v :: v in s.vectors ==> v.pageId in s.issued && s.issued[v.pageId] == s.vectors[v].doc)
  }

  ghost predicate Consistent(s: System)
  {
    IndexesAgree(s.meta) && IdsBelowCounters(s.meta) && SectionsUnique(s.meta) && IssuedFaithfully(s)
      && 1 <= s.meta.nextPage
  }

  lemma {:induction false} SavedChunksConsistent(s: System, rows: seq<ChunkRow>, flags: seq<bool>)
    requires Consistent(s) && |rows| == |flags|
    ensures Consistent(s.(meta := SavedChunks(s.meta, rows, flags)))
    decreases |rows|
  {
    if rows != [] {
      var k := |rows| - 1;
      SavedChunksConsistent(s, rows[..k], flags[..k]);
      SavedChunkConsistent(s.(meta := SavedChunks(s.meta, rows[..k], flags[..k])), rows[k], flags[k]);
    } else {
      assert s.(meta := s.meta) == s;
    }
  }

  lemma SavedChunkConsistent(s: System, row: ChunkRow, indexed: bool)
    requires Consistent(s)
    ensures Consistent(s.(meta := SavedChunk(s.meta, row, indexed)))
  {
  }

  lemma {:induction false} StoredVectorsOrigin(v: Vectors, rows: seq<ChunkRow>, key: VectorKey)
    requires key in StoredVectors(v, rows)
    ensures (key in v && StoredVectors(v, rows)[key] == v[key])
         || exists k :: 0 <= k < |rows| && KeyOf(rows[k]) == key && StoredVectors(v, rows)[key] == VectorOf(rows[k])
    decreases |rows|
  {
    if rows != [] {
      var n := |rows| - 1;
      if KeyOf(rows[n]) != key {
        StoredVectorsOrigin(v, rows[..n], key);
        if !(key in v && StoredVectors(v, rows)[key] == v[key]) {
          var k :| 0 <= k < n && KeyOf(rows[..n][k]) == key && StoredVectors(v, rows[..n])[key] == VectorOf(rows[..n][k]);
          assert rows[k] == rows[..n][k];
        }
      }
    }
  }

  lemma SavedPageConsistent(s: System, page: PageRow, indexed: bool)
    requires Consistent(s)
    ensures Consistent(Apply(s, SavePage(page, indexed)))
  {
  }

  lemma SavedSectionConsistent(s: System, row: SectionRow)
    requires Consistent(s)
    ensures Consistent(Apply(s, SaveSection(row)))
  {
  }

  lemma DeletedConsistent(s: System, doc: string)
    requires Consistent(s)
    ensures Consistent(Apply(s, DeleteDocument(doc)))
  {
    var m, d := s.meta, Deleted(s.meta, doc);
    forall k | k in d.pagesFts ensures k in d.pages && d.pagesFts[k] == d.pages[k].text != "" {
      assert k in m.pagesFts;
    }
    forall k | k in d.chunksFts ensures k in d.chunks && d.chunksFts[k] == d.chunks[k].text != "" {
      assert k in m.chunksFts;
    }
  }

  lemma StoredVectorsConsistent(s: System, rows: seq<ChunkRow>)
    requires Consistent(s) && Allowed(s, StoreVectors(rows))
    ensures Consistent(Apply(s, StoreVectors(rows)))
  {
    var t := Apply(s, StoreVectors(rows));
    forall v | v in t.vectors ensures v.pageId in t.issued && t.issued[v.pageId] == t.vectors[v].doc {
      StoredVectorsOrigin(s.vectors, rows, v);
    }
  }

  /** Every committed transaction keeps the databases consistent. */
  lemma ApplyConsistent(s: System, op: Op)
    requires Consistent(s) && Allowed(s, op)
    ensures Consistent(Apply(s, op))
  {
    match op {
      case SaveDocument(_, _) =>
      case SavePage(page, indexed) => SavedPageConsistent(s, page, indexed);
      case SaveChunks(rows, flags) => SavedChunksConsistent(s, rows, flags);
      case SaveSection(row) => SavedSectionConsistent(s, row);
      case DeleteDocument(doc) => DeletedConsistent(s, doc);
      case StoreVectors(rows) => StoredVectorsConsistent(s, rows);
      case DeleteVectors(_) =>
    }
  }

  /** In every reachable state the indexes agree with their tables, sections are unique, and
      a vector row never points at a page of another document. */
  lemma {:induction false} ReachableConsistent(s: System, ops: seq<Op>, t: System)
    requires Consistent(s) && Runs(s, ops, t)
    ensures Consistent(t)
    decreases |ops|
  {
    if ops != [] {
      ApplyConsistent(s, ops[0]);
      ReachableConsistent(Apply(s, ops[0]), ops[1..], t);
    }
  }

  lemma FreshReachable(ops: seq<Op>, t: System)
    requires Runs(FRESH, ops, t)
    ensures Consistent(t)
    ensures forall v :: v in t.vectors && v.pageId in t.meta.pages ==> t.meta.pages[v.pageId].doc == t.vectors[v].doc
  {
    ReachableConsistent(FRESH, ops, t);
  }

  // ---------- deletion ----------

  /** No table and no index has a row of the document. */
  ghost predicate NothingLeft(m: Meta, doc: string)
  {
    && doc !in m.docs
    && (forall k :: k in m.pages ==> m.pages[k].doc != doc)
    && (forall k :: k in m.chunks ==> m.chunks[k].doc != doc)
    && (forall k :: k in m.sections ==> m.sections[k].doc != doc)
    && (forall k :: k in m.fragments ==> m.fragments[k] != doc)
    && (forall k :: k in m.facts ==> m.facts[k] != doc)
    && IndexesAgree(m)
  }

  /** The rows of every other document are still there, unchanged. */
  ghost predicate OthersKept(m: Meta, d: Meta, doc: string)
  {
    && (forall x :: x in m.docs && x != doc ==> x in d.docs && d.docs[x] == m.docs[x])
    && (forall k :: k in m.pages && m.pages[k].doc != doc ==> k in d.pages && d.pages[k] == m.pages[k])
    && (forall k :: k in m.chunks && m.chunks[k].doc != doc ==> k in d.chunks && d.chunks[k] == m.chunks[k])
    && (forall k :: k in m.sections && m.sections[k].doc != doc ==> k in d.sections && d.sections[k] == m.sections[k])
    && (forall k :: k in m.fragments && m.fragments[k] != doc ==> k in d.fragments)
    && (forall k :: k in m.facts && m.facts[k] != doc ==> k in d.facts)
    && (forall k :: k in m.pagesFts && k in d.pages ==> k in d.pagesFts && d.pagesFts[k] == m.pagesFts[k])
    && (forall k :: k in m.chunksFts && k in d.chunks ==> k in d.chunksFts && d.chunksFts[k] == m.chunksFts[k])
  }

  /** A deleted document leaves no row behind in any table or index. */
  lemma DeletionComplete(m: Meta, doc: string)
    requires IndexesAgree(m)
    ensures NothingLeft(Deleted(m, doc), doc)
  {
    var d := Deleted(m, doc);
    forall k | k in d.pagesFts ensures k in d.pages && d.pagesFts[k] == d.pages[k].text != "" {
      assert k in m.pagesFts;
    }
    forall k | k in d.chunksFts ensures k in d.chunks && d.chunksFts[k] == d.chunks[k].text != "" {
      assert k in m.chunksFts;
    }
  }

  /** Deletion touches nothing else. */
  lemma DeletionPrecise(m: Meta, doc: string)
    ensures OthersKept(m, Deleted(m, doc), doc)
  {
  }

  lemma NextPageGrows(s: System, op: Op)
    requires Allowed(s, op)
    ensures s.meta.nextPage <= Apply(s, op).meta.nextPage
    ensures forall p :: p in Apply(s, op).meta.pages ==> p in s.meta.pages || p == s.meta.nextPage
  {
    match op {
      case SaveChunks(rows, flags) => ChunksLeavePages(s.meta, rows, flags);
      case _ =>
    }
  }

  lemma {:induction false} ChunksLeavePages(m: Meta, rows: seq<ChunkRow>, flags: seq<bool>)
    requires |rows| == |flags|
    ensures SavedChunks(m, rows, flags).pages == m.pages
    ensures SavedChunks(m, rows, flags).nextPage == m.nextPage
    decreases |rows|
  {
    if rows != [] {
      ChunksLeavePages(m, rows[..|rows| - 1], flags[..|rows| - 1]);
    }
  }

  /** A page id that is gone stays gone: whatever happens later, a vector row left behind
      under it can never resolve to a page again. */
  lemma {:induction false} DeadPagesStayDead(s: System, ops: seq<Op>, t: System, p: nat)
    requires Runs(s, ops, t) && p < s.meta.nextPage && p !in s.meta.pages
    ensures p !in t.meta.pages
    decreases |ops|
  {
    if ops != [] {
      NextPageGrows(s, ops[0]);
      DeadPagesStayDead(Apply(s, ops[0]), ops[1..], t, p);
    }
  }
}
