/**
 * `_gitlinks`: the embedded repositories named by a NUL-terminated listing of git, in either
 * of the two formats that `_commit_improvement` compares.
 */
module Gitlinks {
  import opened Wrappers
  import opened Text

  const NUL: char := '\U{00}'
  const GITLINK_MODE := "160000"

  type Link = (string, string)

  /** One record `<mode> [<type>] <oid>[ <stage>]\t<path>`. */
  function RecordLink(record: string): Option<Link> {
    var (meta, path) := CutAt(record, '\t');
    var fields := Fields(meta);
    if |fields| >= 2 && fields[0] == GITLINK_MODE && fields[1] != "commit" then Some((path, fields[1]))
    else if |fields| >= 3 && fields[0] == GITLINK_MODE then Some((path, fields[2]))
    else None
  }

  /** A gitlink record without an object id: Python raises IndexError. */
  predicate Broken(record: string) {
    var fields := Fields(CutAt(record, '\t').0);
    fields != [] && fields[0] == GITLINK_MODE && RecordLink(record).None?
  }

  /** Python raises on a bare mode, and on a bare mode with the type: nothing else lacks the id. */
  lemma BrokenIff(record: string)
    ensures Broken(record) <==>
      Fields(CutAt(record, '\t').0) == ["160000"] || Fields(CutAt(record, '\t').0) == ["160000", "commit"]
  {
    var fields := Fields(CutAt(record, '\t').0);
    if |fields| == 2 { assert fields == [fields[0], fields[1]]; }
    if |fields| == 1 { assert fields == [fields[0]]; }
  }

  function LinksIn(records: seq<string>): set<Link> {
    set r | r in records && RecordLink(r).Some? :: RecordLink(r).value
  }

  /** `_gitlinks`; `None` where it raises. */
  method ReadLinks(listing: string) returns (links: Option<set<Link>>)
    ensures links == ReadResult(Split(listing, NUL))
  {
    var found := {};
    var records := Split(listing, NUL);
    for i := 0 to |records|
      invariant found == LinksIn(records[..i]) && forall r :: r in records[..i] ==> !Broken(r)
    {
      var link := RecordLink(records[i]);
      assert records[..i + 1] == records[..i] + [records[i]];
      if Broken(records[i]) {
        return None;
      }
      if link.Some? {
        found := found + {link.value};
      }
    }
    assert records[..|records|] == records;
    return Some(found);
  }

  function ReadResult(records: seq<string>): Option<set<Link>> {
    if exists r :: r in records && Broken(r) then None else Some(LinksIn(records))
  }

  // ----- the listings that git prints -------------------------------------------------

  datatype Entry = Entry(mode: string, oid: string, path: string)

  ghost predicate Listable(e: Entry) {
    && IsToken(e.mode) && NUL !in e.mode && '\t' !in e.mode
    && IsToken(e.oid) && NUL !in e.oid && '\t' !in e.oid && e.oid != "commit"
    && NUL !in e.path
  }

  /** `git ls-files --stage -z`. */
  function IndexMeta(e: Entry): string {
    e.mode + " " + e.oid + " 0"
  }

  /** `git ls-tree -r -z`. */
  function TreeMeta(e: Entry): string {
    e.mode + " " + (if e.mode == GITLINK_MODE then "commit" else "blob") + " " + e.oid
  }

  function Print(entries: seq<Entry>, meta: Entry -> string): string {
    if entries == [] then ""
    else meta(entries[0]) + "\t" + entries[0].path + [NUL] + Print(entries[1..], meta)
  }

  function LinksOf(entries: seq<Entry>): set<Link> {
    set e | e in entries && e.mode == GITLINK_MODE :: (e.path, e.oid)
  }

  function EntryLink(e: Entry): Option<Link> {
    if e.mode == GITLINK_MODE then Some((e.path, e.oid)) else None
  }

  lemma ThreeFields(a: string, b: string, c: string)
    requires IsToken(a) && IsToken(b) && IsToken(c)
    ensures Fields(a + " " + b + " " + c) == [a, b, c]
  {
    LaterField(b, " " + c);
    LaterField(c, "");
    var tail := " " + b + (" " + c);
    assert a + " " + b + " " + c == a + tail;
    FieldsFirst(a, tail);
    assert " " + c + "" == " " + c;
  }

  /** A token after one space. */
  lemma LaterField(t: string, rest: string)
    requires IsToken(t) && (rest == "" || IsSpace(rest[0]))
    ensures Fields(" " + t + rest) == [t] + Fields(rest)
  {
    assert (" " + t + rest)[1..] == t + rest;
    FieldsFirst(t, rest);
  }

  /** A meta part without tab and NUL, whose fields name the entry. */
  ghost predicate Describes(meta: string, e: Entry) {
    && '\t' !in meta && NUL !in meta
    && |Fields(meta)| == 3 && Fields(meta)[0] == e.mode
    && (e.mode == GITLINK_MODE ==>
          (Fields(meta)[1] == e.oid && e.oid != "commit") || (Fields(meta)[1] == "commit" && Fields(meta)[2] == e.oid))
  }

  lemma IndexMetaDescribes(e: Entry)
    requires Listable(e)
    ensures Describes(IndexMeta(e), e)
  {
    assert IsToken("0");
    ThreeFields(e.mode, e.oid, "0");
    assert IndexMeta(e) == e.mode + " " + e.oid + " " + "0";
  }

  lemma TreeMetaDescribes(e: Entry)
    requires Listable(e)
    ensures Describes(TreeMeta(e), e)
  {
    assert IsToken("commit") && IsToken("blob");
    ThreeFields(e.mode, if e.mode == GITLINK_MODE then "commit" else "blob", e.oid);
  }

  lemma RecordOfEntry(meta: string, e: Entry)
    requires Describes(meta, e)
    ensures RecordLink(meta + "\t" + e.path) == EntryLink(e) && !Broken(meta + "\t" + e.path)
  {
    CutAtFirst(meta, '\t', e.path);
    assert meta + "\t" + e.path == meta + ['\t'] + e.path;
  }

  /** Reading a printed listing gives the records of its entries and one empty record. */
  lemma {:induction false} PrintedLinks(entries: seq<Entry>, meta: Entry -> string)
    requires forall e :: e in entries ==> Listable(e) && Describes(meta(e), e)
    ensures LinksIn(Split(Print(entries, meta), NUL)) == LinksOf(entries)
    ensures forall r :: r in Split(Print(entries, meta), NUL) ==> !Broken(r)
  {
    if entries != [] {
      var e, rest := entries[0], Print(entries[1..], meta);
      var record := meta(e) + "\t" + e.path;
      assert e in entries;
      RecordOfEntry(meta(e), e);
      assert NUL !in record;
      SplitFirst(record, NUL, rest);
      assert Print(entries, meta) == record + [NUL] + rest;
      PrintedLinks(entries[1..], meta);
      LinksInFirst(record, Split(rest, NUL));
      LinksOfFirst(e, entries[1..]);
      assert entries == [e] + entries[1..];
    }
  }

  lemma LinksInFirst(record: string, records: seq<string>)
    ensures LinksIn([record] + records) ==
      (if RecordLink(record).Some? then {RecordLink(record).value} else {}) + LinksIn(records)
  {
  }

  lemma LinksOfFirst(e: Entry, entries: seq<Entry>)
    ensures LinksOf([e] + entries) == (if EntryLink(e).Some? then {EntryLink(e).value} else {}) + LinksOf(entries)
  {
  }

  /**
   * Both listing formats give back exactly the mode-160000 pairs, for paths with tabs, spaces
   * or anything else but NUL; so the comparison of the index listing with the tree listing is
   * the comparison of the embedded repositories.
   */
  lemma ListingsCompareRepositories(index: seq<Entry>, tree: seq<Entry>)
    requires forall e :: e in index || e in tree ==> Listable(e)
    ensures ReadResult(Split(Print(index, IndexMeta), NUL)) == Some(LinksOf(index))
    ensures ReadResult(Split(Print(tree, TreeMeta), NUL)) == Some(LinksOf(tree))
  {
    forall e | e in index ensures Describes(IndexMeta(e), e) { IndexMetaDescribes(e); }
    forall e | e in tree ensures Describes(TreeMeta(e), e) { TreeMetaDescribes(e); }
    PrintedLinks(index, IndexMeta);
    PrintedLinks(tree, TreeMeta);
  }
}
