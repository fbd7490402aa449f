/** What validateTarPayload accepts: internal/modules/payload.go. */
module Payload {
  import opened Wrappers
  import opened Strings
  import opened Fingerprint

  const MAX_FILES := 1024
  const MAX_FILE_BYTES := 0x400_0000
  const MAX_EXPANDED_BYTES := 0x800_0000
  const MAX_MODE := 511 // 0o777

  const SLASH: Byte := 47
  const BACKSLASH: Byte := 92
  const DOT: Bytes := [46]
  const DOTDOT: Bytes := [46, 46]

  // ---------------------------------------------------------------- path.Clean

  /** The elements kept so far, after one more element: path.Clean's rules on a slash-separated name. */
  function CleanElement(kept: seq<Bytes>, rooted: bool, element: Bytes): seq<Bytes> {
    if element == [] || element == DOT then kept
    else if element != DOTDOT then kept + [element]
    else if kept != [] && kept[|kept| - 1] != DOTDOT then kept[..|kept| - 1]
    else if rooted then kept
    else kept + [DOTDOT]
  }

  function CleanElements(elements: seq<Bytes>, rooted: bool): seq<Bytes> {
    if elements == [] then []
    else CleanElement(CleanElements(elements[..|elements| - 1], rooted), rooted, elements[|elements| - 1])
  }

  /** path.Clean */
  function Clean(name: Bytes): Bytes {
    var rooted := name != [] && name[0] == SLASH;
    var kept := CleanElements(Split(name, SLASH), rooted);
    if rooted then [SLASH] + Join(kept, SLASH) else if kept == [] then DOT else Join(kept, SLASH)
  }

  function CleanPayloadPath(name: Bytes): Option<Bytes> {
    if name == [] || BACKSLASH in name then None
    else
      var clean := Clean(name);
      if clean == DOT || clean != name || [SLASH] <= clean || clean == DOTDOT || DOTDOT + [SLASH] <= clean then None
      else Some(clean)
  }

  predicate PlainElement(element: Bytes) {
    element != [] && element != DOT && element != DOTDOT
  }

  /** A relative path without empty, current or parent elements. */
  predicate SafePath(name: Bytes) {
    BACKSLASH !in name && forall element <- Split(name, SLASH) :: PlainElement(element)
  }

  /** Parents only in front; everything else is plain and free of slashes. */
  predicate CleanShape(kept: seq<Bytes>) {
    && (forall i :: 0 <= i < |kept| ==> kept[i] == DOTDOT || PlainElement(kept[i]))
    && (forall i, j :: 0 <= i < j < |kept| && kept[j] == DOTDOT ==> kept[i] == DOTDOT)
    && (forall element <- kept :: SLASH !in element)
  }

  lemma {:induction false} KeptShape(elements: seq<Bytes>, rooted: bool)
    requires forall element <- elements :: SLASH !in element
    ensures CleanShape(CleanElements(elements, rooted))
  {
    if elements != [] {
      var n := |elements| - 1;
      KeptShape(elements[..n], rooted);
      var kept := CleanElements(elements[..n], rooted);
      assert elements[n] in elements;
      assert forall element <- CleanElement(kept, rooted, elements[n]) :: element in kept || element == elements[n] || element == DOTDOT;
    }
  }

  lemma {:induction false} PlainKept(elements: seq<Bytes>, rooted: bool)
    requires forall element <- elements :: PlainElement(element)
    ensures CleanElements(elements, rooted) == elements
  {
    if elements != [] {
      var n := |elements| - 1;
      PlainKept(elements[..n], rooted);
      assert elements[n] in elements;
      assert elements[..n] + [elements[n]] == elements;
    }
  }

  lemma JoinStartsWithFirst(parts: seq<Bytes>)
    requires parts != []
    ensures Join(parts, SLASH) == parts[0] || parts[0] + [SLASH] <= Join(parts, SLASH)
  {
  }

  lemma SafePathIsClean(name: Bytes)
    requires SafePath(name)
    ensures CleanPayloadPath(name) == Some(name)
  {
    var elements := Split(name, SLASH);
    assert elements[0] in elements;
    JoinSplit(name, SLASH);
    JoinStartsWithFirst(elements);
    assert name[0] == elements[0][0] && elements[0][0] in elements[0];
    PlainKept(elements, false);
    if name == DOT || name == DOTDOT {
      SplitPiece(name, SLASH);
      assert false;
    }
    if DOTDOT + [SLASH] <= name {
      assert name == DOTDOT + [SLASH] + name[3..];
      SplitCons(DOTDOT, name[3..], SLASH);
      assert false;
    }
  }

  lemma AcceptedIsSafe(name: Bytes)
    requires CleanPayloadPath(name).Some?
    ensures SafePath(name)
  {
    var kept := CleanElements(Split(name, SLASH), false);
    KeptShape(Split(name, SLASH), false);
    SplitJoin(kept, SLASH);
    JoinStartsWithFirst(kept);
    assert kept[0] != DOTDOT;
    assert forall i :: 0 <= i < |kept| ==> PlainElement(kept[i]);
  }

  /** cleanPayloadPath accepts exactly the safe paths, and returns them unchanged. */
  lemma CleanPayloadPathIffSafe(name: Bytes)
    ensures CleanPayloadPath(name) == if SafePath(name) then Some(name) else None
  {
    if SafePath(name) {
      SafePathIsClean(name);
    }
    if CleanPayloadPath(name).Some? {
      AcceptedIsSafe(name);
    }
  }

  // ---------------------------------------------------------------- the archive

  datatype Kind = Directory | Regular | Unsupported

  /** One tar entry; `content` is what its reader yields before the next header or a read error. */
  datatype Entry = Entry(name: Bytes, kind: Kind, size: int, mode: int, content: Bytes) | Unreadable

  function ValidatePayloadLimits(fileCount: nat, expandedBytes: int, fileSize: int): bool {
    && fileCount < MAX_FILES
    && fileSize <= MAX_FILE_BYTES
    && 0 <= expandedBytes <= MAX_EXPANDED_BYTES
    && fileSize <= MAX_EXPANDED_BYTES - expandedBytes
  }

  predicate EntryOk(e: Entry) {
    && e.Entry? && SafePath(e.name)
    && match e.kind
       case Directory => e.size == 0
       case Regular => 0 <= e.size <= MAX_FILE_BYTES && 0 <= e.mode <= MAX_MODE && e.size <= |e.content|
       case Unsupported => false
  }

  function RegularFiles(entries: seq<Entry>): (files: seq<PayloadFile>)
    ensures |files| <= |entries|
  {
    if entries == [] then []
    else
      var e := entries[|entries| - 1];
      var rest := RegularFiles(entries[..|entries| - 1]);
      if e.Entry? && e.kind == Regular && 0 <= e.size <= |e.content|
      then rest + [PayloadFile(e.name, e.mode, e.content[..e.size])]
      else rest
  }

  function TotalBytes(files: seq<PayloadFile>): nat {
    if files == [] then 0 else TotalBytes(files[..|files| - 1]) + |files[|files| - 1].data|
  }

  predicate DistinctNames(entries: seq<Entry>) {
    forall i, j :: 0 <= i < j < |entries| && entries[i].Entry? && entries[j].Entry? ==> entries[i].name != entries[j].name
  }

  /** A payload as documented: safe distinct paths, supported kinds and modes, and bounded totals. */
  predicate ArchiveOk(entries: seq<Entry>) {
    && (forall e <- entries :: EntryOk(e))
    && DistinctNames(entries)
    && |RegularFiles(entries)| <= MAX_FILES
    && TotalBytes(RegularFiles(entries)) <= MAX_EXPANDED_BYTES
  }

  lemma {:induction false} PrefixTotals(entries: seq<Entry>, n: nat)
    requires n <= |entries|
    ensures |RegularFiles(entries[..n])| <= |RegularFiles(entries)|
    ensures TotalBytes(RegularFiles(entries[..n])) <= TotalBytes(RegularFiles(entries))
    decreases |entries|
  {
    if n < |entries| {
      var m := |entries| - 1;
      PrefixTotals(entries[..m], n);
      assert entries[..m][..n] == entries[..n];
      var e := entries[m];
      if RegularFiles(entries) != RegularFiles(entries[..m]) {
        var files := RegularFiles(entries);
        assert files[..|files| - 1] == RegularFiles(entries[..m]);
      }
    } else {
      assert entries[..n] == entries;
    }
  }

  lemma PrefixOk(entries: seq<Entry>, n: nat)
    requires n <= |entries| && ArchiveOk(entries)
    ensures ArchiveOk(entries[..n])
  {
    PrefixTotals(entries, n);
    assert forall e <- entries[..n] :: e in entries;
  }

  lemma OneMore(entries: seq<Entry>, n: nat)
    requires n < |entries|
    ensures var e := entries[n];
            var files := RegularFiles(entries[..n]);
            var files' := RegularFiles(entries[..n + 1]);
            if e.Entry? && e.kind == Regular && 0 <= e.size <= |e.content|
            then files' == files + [PayloadFile(e.name, e.mode, e.content[..e.size])] && TotalBytes(files') == TotalBytes(files) + e.size
            else files' == files
  {
    assert entries[..n + 1][..n] == entries[..n];
    var e := entries[n];
    var files := RegularFiles(entries[..n]);
    if e.Entry? && e.kind == Regular && 0 <= e.size <= |e.content| {
      assert (files + [PayloadFile(e.name, e.mode, e.content[..e.size])])[..|files|] == files;
    }
  }

  /** The tests of one loop iteration. */
  predicate Fits(e: Entry, files: seq<PayloadFile>, seen: set<Bytes>) {
    && EntryOk(e) && e.name !in seen
    && (e.kind == Regular ==> ValidatePayloadLimits(|files|, TotalBytes(files), e.size))
  }

  function NamesOf(entries: seq<Entry>): set<Bytes> {
    set e <- entries | e.Entry? :: e.name
  }

  lemma ExtendDistinct(entries: seq<Entry>, e: Entry)
    requires DistinctNames(entries) && e.Entry?
    ensures DistinctNames(entries + [e]) <==> e.name !in NamesOf(entries)
  {
    var longer := entries + [e];
    assert forall i :: 0 <= i < |entries| ==> longer[i] == entries[i] && entries[i] in entries;
    assert longer[|entries|] == e;
    if e.name in NamesOf(entries) {
      var i :| 0 <= i < |entries| && entries[i].Entry? && entries[i].name == e.name;
      assert longer[i].name == longer[|entries|].name;
    }
  }

  lemma ExtendEntries(entries: seq<Entry>, e: Entry)
    requires forall x <- entries :: EntryOk(x)
    ensures (forall x <- entries + [e] :: EntryOk(x)) <==> EntryOk(e)
  {
    assert e in entries + [e];
    assert forall x <- entries + [e] :: x in entries || x == e;
  }

  /** On an accepted prefix they decide exactly whether the longer prefix is accepted. */
  lemma ExtendOk(entries: seq<Entry>, e: Entry)
    requires ArchiveOk(entries)
    ensures ArchiveOk(entries + [e]) <==> Fits(e, RegularFiles(entries), NamesOf(entries))
  {
    var longer := entries + [e];
    OneMore(longer, |entries|);
    assert longer[..|entries|] == entries && longer[..|entries| + 1] == longer;
    ExtendEntries(entries, e);
    if EntryOk(e) {
      ExtendDistinct(entries, e);
    }
  }

  lemma NotOk(entries: seq<Entry>, n: nat)
    requires n <= |entries| && !ArchiveOk(entries[..n])
    ensures !ArchiveOk(entries)
  {
    if ArchiveOk(entries) {
      PrefixOk(entries, n);
    }
  }

  /** The body of the loop: the tests, in the order of the code. */
  method CheckEntry(e: Entry, files: seq<PayloadFile>, seen: set<Bytes>, expandedBytes: nat) returns (ok: bool)
    requires expandedBytes == TotalBytes(files)
    ensures ok <==> Fits(e, files, seen)
  {
    if e.Unreadable? {
      return false;
    }
    CleanPayloadPathIffSafe(e.name);
    var clean := CleanPayloadPath(e.name);
    if clean.None? || clean.value in seen {
      return false;
    }
    if e.kind == Directory {
      return e.size == 0;
    }
    if e.kind != Regular {
      return false;
    }
    if e.size < 0 || e.mode < 0 || e.mode > MAX_MODE || !ValidatePayloadLimits(|files|, expandedBytes, e.size) {
      return false;
    }
    return |e.content| >= e.size;
  }

  lemma NextPrefix(entries: seq<Entry>, n: nat)
    requires n < |entries| && ArchiveOk(entries[..n])
    ensures var e := entries[n];
            var files := RegularFiles(entries[..n]);
            var files' := RegularFiles(entries[..n + 1]);
            if Fits(e, files, NamesOf(entries[..n]))
            then && ArchiveOk(entries[..n + 1]) && NamesOf(entries[..n + 1]) == NamesOf(entries[..n]) + {e.name}
                 && (e.kind == Regular ==>
                       files' == files + [PayloadFile(e.name, e.mode, e.content[..e.size])]
                       && TotalBytes(files') == TotalBytes(files) + e.size)
                 && (e.kind != Regular ==> files' == files)
            else !ArchiveOk(entries)
  {
    var e := entries[n];
    ExtendOk(entries[..n], e);
    OneMore(entries, n);
    assert entries[..n + 1] == entries[..n] + [e];
    if Fits(e, RegularFiles(entries[..n]), NamesOf(entries[..n])) {
      NamesSnoc(entries[..n], e);
    } else {
      NotOk(entries, n + 1);
    }
  }

  /** Accepts exactly the documented archives and yields their regular files in order. */
  method ValidateTarPayload(entries: seq<Entry>) returns (r: Option<seq<PayloadFile>>)
    ensures r.Some? <==> ArchiveOk(entries) && RegularFiles(entries) != []
    ensures r.Some? ==> r.value == RegularFiles(entries)
  {
    var files: seq<PayloadFile> := [];
    var seen: set<Bytes> := {};
    var expandedBytes := 0;
    var n := 0;
    while n < |entries|
      invariant 0 <= n <= |entries|
      invariant ArchiveOk(entries[..n])
      invariant seen == NamesOf(entries[..n])
      invariant files == RegularFiles(entries[..n]) && expandedBytes == TotalBytes(files)
    {
      var e := entries[n];
      NextPrefix(entries, n);
      var ok := CheckEntry(e, files, seen, expandedBytes);
      if !ok {
        return None;
      }
      seen := seen + {e.name};
      if e.kind == Regular {
        var data := e.content[..e.size];
        expandedBytes := expandedBytes + |data|;
        files := files + [PayloadFile(e.name, e.mode, data)];
      }
      n := n + 1;
    }
    assert entries[..n] == entries;
    return if files == [] then None else Some(files);
  }

  lemma NamesSnoc(entries: seq<Entry>, e: Entry)
    requires e.Entry?
    ensures NamesOf(entries + [e]) == NamesOf(entries) + {e.name}
  {
    assert forall x :: x in entries + [e] <==> x in entries || x == e;
  }
}
