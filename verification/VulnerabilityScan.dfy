/** The two-pass scan of one device: internal/inventory/vulnerability.go over the rows of device_vulnerabilities. */
module VulnerabilityScan {
  import opened Wrappers
  import opened Strings
  import opened Versions

  type CveId = string

  datatype Cve = Cve(id: CveId, package: string, fixedIn: string)

  datatype Status = Open | Patched | Ignored

  datatype VulnRow = VulnRow(cveId: CveId, package: string, currentVersion: string, fixedIn: string, status: Status)

  type Packages = map<string, string>

  ghost predicate IsAffected(current: string, fixed: string) {
    VersionLess(current, fixed)
  }

  // ---------------------------------------------------------------- the passes as functions

  predicate HasRow(rows: seq<VulnRow>, id: CveId) {
    exists r <- rows :: r.cveId == id
  }

  predicate HasOpenRow(rows: seq<VulnRow>, id: CveId) {
    exists r <- rows :: r.cveId == id && r.status == Open
  }

  predicate HasClosedRow(rows: seq<VulnRow>, id: CveId) {
    exists r <- rows :: r.cveId == id && r.status != Open
  }

  /** The INSERT: a second row for the same device and CVE violates the table's unique constraint. */
  function Insert(rows: seq<VulnRow>, row: VulnRow): seq<VulnRow> {
    if HasRow(rows, row.cveId) then rows else rows + [row]
  }

  /** The CVE names an installed package at a version that counts as affected. */
  ghost predicate Matches(cve: Cve, packages: Packages) {
    cve.package in packages && (cve.fixedIn == "" || IsAffected(packages[cve.package], cve.fixedIn))
  }

  ghost function MatchOne(rows: seq<VulnRow>, cve: Cve, packages: Packages): seq<VulnRow> {
    if !Matches(cve, packages) || HasOpenRow(rows, cve.id) then rows
    else Insert(rows, VulnRow(cve.id, cve.package, packages[cve.package], cve.fixedIn, Open))
  }

  ghost function MatchAll(rows: seq<VulnRow>, cves: seq<Cve>, packages: Packages): seq<VulnRow> {
    if cves == [] then rows
    else MatchOne(MatchAll(rows, cves[..|cves| - 1], packages), cves[|cves| - 1], packages)
  }

  ghost function Remediated(row: VulnRow, packages: Packages): VulnRow {
    if row.status != Open || row.package !in packages || packages[row.package] == row.currentVersion then row
    else if IsAffected(packages[row.package], row.fixedIn) then row.(currentVersion := packages[row.package])
    else row.(currentVersion := packages[row.package], status := Patched)
  }

  ghost function RemediateAll(rows: seq<VulnRow>, packages: Packages): seq<VulnRow> {
    seq(|rows|, i requires 0 <= i < |rows| => Remediated(rows[i], packages))
  }

  ghost function Scan(rows: seq<VulnRow>, cves: seq<Cve>, packages: Packages): seq<VulnRow> {
    RemediateAll(MatchAll(rows, cves, packages), packages)
  }

  // ---------------------------------------------------------------- the invariant of the table

  predicate UniqueIds(cves: seq<Cve>) {
    forall i, j :: 0 <= i < j < |cves| ==> cves[i].id != cves[j].id
  }

  predicate OneRowPerCve(rows: seq<VulnRow>) {
    forall i, j :: 0 <= i < j < |rows| ==> rows[i].cveId != rows[j].cveId
  }

  /** A row repeats its CVE's package and fix; an open row with a fix records an affected version. */
  ghost predicate RowOk(r: VulnRow, cves: seq<Cve>) {
    && Cve(r.cveId, r.package, r.fixedIn) in cves
    && (r.status == Open && r.fixedIn != "" ==> IsAffected(r.currentVersion, r.fixedIn))
  }

  ghost predicate TableOk(rows: seq<VulnRow>, cves: seq<Cve>) {
    OneRowPerCve(rows) && forall r <- rows :: RowOk(r, cves)
  }

  lemma MatchOneKeeps(rows: seq<VulnRow>, cve: Cve, packages: Packages, cves: seq<Cve>)
    requires TableOk(rows, cves) && cve in cves
    ensures TableOk(MatchOne(rows, cve, packages), cves)
  {
    var after := MatchOne(rows, cve, packages);
    if after != rows {
      var row := after[|rows|];
      assert RowOk(row, cves);
      assert forall i :: 0 <= i < |rows| ==> rows[i] in rows;
    }
  }

  lemma {:induction false} MatchAllKeeps(rows: seq<VulnRow>, done: seq<Cve>, packages: Packages, cves: seq<Cve>)
    requires TableOk(rows, cves) && forall c <- done :: c in cves
    ensures TableOk(MatchAll(rows, done, packages), cves)
  {
    if done != [] {
      var n := |done| - 1;
      MatchAllKeeps(rows, done[..n], packages, cves);
      assert done[n] in done;
      MatchOneKeeps(MatchAll(rows, done[..n], packages), done[n], packages, cves);
    }
  }

  lemma RemediateKeeps(rows: seq<VulnRow>, packages: Packages, cves: seq<Cve>)
    requires TableOk(rows, cves)
    ensures TableOk(RemediateAll(rows, packages), cves)
  {
    var after := RemediateAll(rows, packages);
    forall r | r in after ensures RowOk(r, cves) {
      var i :| 0 <= i < |after| && after[i] == r;
      assert rows[i] in rows;
    }
  }

  /** A scan keeps the table consistent; in particular at most one row, open or not, per CVE. */
  lemma ScanKeeps(rows: seq<VulnRow>, cves: seq<Cve>, packages: Packages)
    requires TableOk(rows, cves)
    ensures TableOk(Scan(rows, cves, packages), cves)
  {
    MatchAllKeeps(rows, cves, packages, cves);
    RemediateKeeps(MatchAll(rows, cves, packages), packages, cves);
  }

  // ---------------------------------------------------------------- what a scan decides

  lemma MatchOneRow(rows: seq<VulnRow>, cve: Cve, packages: Packages, id: CveId)
    ensures var after := MatchOne(rows, cve, packages);
            && (HasClosedRow(after, id) <==> HasClosedRow(rows, id))
            && (HasOpenRow(after, id) <==> HasOpenRow(rows, id) || (cve.id == id && Matches(cve, packages) && !HasRow(rows, id)))
  {
    var after := MatchOne(rows, cve, packages);
    if after != rows {
      assert forall r <- after :: r in rows || r == after[|rows|];
      assert after[|rows|] in after && forall r <- rows :: r in after;
    }
  }

  lemma RowIsOpenOrClosed(rows: seq<VulnRow>, id: CveId)
    ensures HasRow(rows, id) <==> HasOpenRow(rows, id) || HasClosedRow(rows, id)
  {
  }

  /** The first pass opens exactly the matching CVEs that have no row yet. */
  lemma {:induction false} MatchAllRow(rows: seq<VulnRow>, cves: seq<Cve>, packages: Packages, id: CveId)
    ensures var after := MatchAll(rows, cves, packages);
            && (HasClosedRow(after, id) <==> HasClosedRow(rows, id))
            && (HasOpenRow(after, id) <==>
                  HasOpenRow(rows, id) || (!HasRow(rows, id) && exists c <- cves :: c.id == id && Matches(c, packages)))
  {
    if cves != [] {
      var n := |cves| - 1;
      MatchAllRow(rows, cves[..n], packages, id);
      MatchOneRow(MatchAll(rows, cves[..n], packages), cves[n], packages, id);
      RowIsOpenOrClosed(rows, id);
      RowIsOpenOrClosed(MatchAll(rows, cves[..n], packages), id);
      SomeMatchSnoc(cves, packages, id);
    }
  }

  lemma SomeMatchSnoc(cves: seq<Cve>, packages: Packages, id: CveId)
    requires cves != []
    ensures var n := |cves| - 1;
            (exists c <- cves :: c.id == id && Matches(c, packages)) <==>
            (exists c <- cves[..n] :: c.id == id && Matches(c, packages)) || (cves[n].id == id && Matches(cves[n], packages))
  {
    var n := |cves| - 1;
    assert cves == cves[..n] + [cves[n]];
    assert forall c :: c in cves <==> c in cves[..n] || c == cves[n];
  }

  lemma OnlyMatch(cves: seq<Cve>, packages: Packages, cve: Cve)
    requires UniqueIds(cves) && cve in cves
    ensures (exists c <- cves :: c.id == cve.id && Matches(c, packages)) <==> Matches(cve, packages)
  {
    forall c | c in cves && c.id == cve.id ensures c == cve {
    }
  }

  /** The second pass keeps an open row exactly when the installed version is still affected. */
  lemma RemediateOpen(rows: seq<VulnRow>, packages: Packages, cves: seq<Cve>, cve: Cve)
    requires UniqueIds(cves) && TableOk(rows, cves) && cve in cves && cve.fixedIn != "" && cve.package in packages
    ensures HasOpenRow(RemediateAll(rows, packages), cve.id) <==>
            HasOpenRow(rows, cve.id) && IsAffected(packages[cve.package], cve.fixedIn)
  {
    var after := RemediateAll(rows, packages);
    if HasOpenRow(after, cve.id) {
      var i :| 0 <= i < |after| && after[i].cveId == cve.id && after[i].status == Open;
      assert rows[i] in rows && RowOk(rows[i], cves);
      SameCve(cves, rows[i], cve);
    }
    if HasOpenRow(rows, cve.id) && IsAffected(packages[cve.package], cve.fixedIn) {
      var i :| 0 <= i < |rows| && rows[i].cveId == cve.id && rows[i].status == Open;
      assert rows[i] in rows && RowOk(rows[i], cves);
      SameCve(cves, rows[i], cve);
      assert after[i] in after;
    }
  }

  lemma SameCve(cves: seq<Cve>, r: VulnRow, cve: Cve)
    requires UniqueIds(cves) && cve in cves && Cve(r.cveId, r.package, r.fixedIn) in cves && r.cveId == cve.id
    ensures r.package == cve.package && r.fixedIn == cve.fixedIn
  {
  }

  /**
    After a scan an installed package's CVE is open exactly when the version is below the fix and no closed row of that
    CVE was there before: a patched or ignored finding is never reopened.
   */
  lemma ScanOpensExactly(rows: seq<VulnRow>, cves: seq<Cve>, packages: Packages, cve: Cve)
    requires UniqueIds(cves) && TableOk(rows, cves) && cve in cves && cve.fixedIn != "" && cve.package in packages
    ensures HasOpenRow(Scan(rows, cves, packages), cve.id) <==>
            IsAffected(packages[cve.package], cve.fixedIn) && !HasClosedRow(rows, cve.id)
  {
    var matched := MatchAll(rows, cves, packages);
    MatchAllKeeps(rows, cves, packages, cves);
    MatchAllRow(rows, cves, packages, cve.id);
    RemediateOpen(matched, packages, cves, cve);
    OnlyMatch(cves, packages, cve);
    RowIsOpenOrClosed(rows, cve.id);
    NotBoth(rows, cve.id);
  }

  lemma NotBoth(rows: seq<VulnRow>, id: CveId)
    requires OneRowPerCve(rows)
    ensures !(HasOpenRow(rows, id) && HasClosedRow(rows, id))
  {
  }

  /** The scan meets its simple definition exactly when no finding of the CVE was closed before. */
  lemma ScanAgreesIffNotClosed(rows: seq<VulnRow>, cves: seq<Cve>, packages: Packages, cve: Cve)
    requires UniqueIds(cves) && TableOk(rows, cves) && cve in cves && cve.fixedIn != "" && cve.package in packages
    ensures (HasOpenRow(Scan(rows, cves, packages), cve.id) <==> IsAffected(packages[cve.package], cve.fixedIn)) <==>
            !(HasClosedRow(rows, cve.id) && IsAffected(packages[cve.package], cve.fixedIn))
  {
    ScanOpensExactly(rows, cves, packages, cve);
  }

  // ---------------------------------------------------------------- findings without a fix

  /** Nothing is below the empty version except a tail on zeros, such as 0-rc1. */
  lemma BelowEmptyVersion(v: string)
    ensures IsAffected(v, "") <==> SameNumbers(Numbers(v), []) && Tail(v) != ""
  {
    EmptyVersion();
  }

  lemma EmptyVersion()
    ensures Numbers("") == [] && Tail("") == ""
  {
    assert Base("") == "" && Split("", '.') == [""];
    assert [""][..0] == [] && TrimSpace("") == "";
    assert Components("") == [];
  }

  /** The CVE has an open row that records this version. */
  predicate OpenAt(rows: seq<VulnRow>, id: CveId, version: string) {
    exists r <- rows :: r.cveId == id && r.status == Open && r.currentVersion == version
  }

  lemma {:induction false} MatchKeepsOpenAt(rows: seq<VulnRow>, cves: seq<Cve>, packages: Packages, id: CveId, version: string)
    requires HasRow(rows, id)
    ensures HasRow(MatchAll(rows, cves, packages), id)
    ensures OpenAt(MatchAll(rows, cves, packages), id, version) <==> OpenAt(rows, id, version)
  {
    if cves != [] {
      var n := |cves| - 1;
      MatchKeepsOpenAt(rows, cves[..n], packages, id, version);
      var before := MatchAll(rows, cves[..n], packages);
      var after := MatchOne(before, cves[n], packages);
      if after != before {
        assert forall r <- after :: r in before || r == after[|before|];
        assert forall r <- before :: r in after;
      }
    }
  }

  lemma {:induction false} MatchOpensAt(rows: seq<VulnRow>, cves: seq<Cve>, packages: Packages, cve: Cve)
    requires UniqueIds(cves) && cve in cves && Matches(cve, packages) && !HasRow(rows, cve.id)
    ensures OpenAt(MatchAll(rows, cves, packages), cve.id, packages[cve.package])
  {
    var n := |cves| - 1;
    assert cves == cves[..n] + [cves[n]];
    var before := MatchAll(rows, cves[..n], packages);
    MatchAllRow(rows, cves[..n], packages, cve.id);
    RowIsOpenOrClosed(rows, cve.id);
    RowIsOpenOrClosed(before, cve.id);
    if cves[n] == cve {
      assert !(exists c <- cves[..n] :: c.id == cve.id && Matches(c, packages)) by {
        assert forall i :: 0 <= i < n ==> cves[..n][i] == cves[i] && cves[i].id != cves[n].id;
      }
      var after := MatchOne(before, cve, packages);
      assert after[|before|] in after;
    } else {
      MatchOpensAt(rows, cves[..n], packages, cve);
      MatchOneKeepsOpenAt(before, cves[n], packages, cve.id, packages[cve.package]);
    }
  }

  lemma MatchOneKeepsOpenAt(rows: seq<VulnRow>, cve: Cve, packages: Packages, id: CveId, version: string)
    requires OpenAt(rows, id, version)
    ensures OpenAt(MatchOne(rows, cve, packages), id, version)
  {
    assert forall r <- rows :: r in MatchOne(rows, cve, packages);
  }

  /** The second pass keeps a finding without a fix at its version, or at a version below the empty one. */
  lemma RemediateUnfixed(rows: seq<VulnRow>, packages: Packages, cves: seq<Cve>, cve: Cve)
    requires UniqueIds(cves) && TableOk(rows, cves) && cve in cves && cve.fixedIn == "" && cve.package in packages
    ensures HasOpenRow(RemediateAll(rows, packages), cve.id) <==>
            HasOpenRow(rows, cve.id) && (OpenAt(rows, cve.id, packages[cve.package]) || IsAffected(packages[cve.package], ""))
  {
    var after := RemediateAll(rows, packages);
    forall i | 0 <= i < |rows| && rows[i].cveId == cve.id
      ensures rows[i].package == cve.package && rows[i].fixedIn == "" && after[i] in after
    {
      assert rows[i] in rows && RowOk(rows[i], cves);
      SameCve(cves, rows[i], cve);
    }
  }

  /**
    A CVE without a fixed version is opened whenever its package is installed and no row of it exists. An open one is
    closed by any change of the version, except to a tail on zeros, and a closed one never reopens.
   */
  lemma ScanOfUnfixed(rows: seq<VulnRow>, cves: seq<Cve>, packages: Packages, cve: Cve)
    requires UniqueIds(cves) && TableOk(rows, cves) && cve in cves && cve.fixedIn == "" && cve.package in packages
    ensures HasOpenRow(Scan(rows, cves, packages), cve.id) <==>
            && !HasClosedRow(rows, cve.id)
            && (HasOpenRow(rows, cve.id) ==>
                  OpenAt(rows, cve.id, packages[cve.package])
                  || (SameNumbers(Numbers(packages[cve.package]), []) && Tail(packages[cve.package]) != ""))
  {
    var matched, version := MatchAll(rows, cves, packages), packages[cve.package];
    MatchAllKeeps(rows, cves, packages, cves);
    MatchAllRow(rows, cves, packages, cve.id);
    RemediateUnfixed(matched, packages, cves, cve);
    OnlyMatch(cves, packages, cve);
    RowIsOpenOrClosed(rows, cve.id);
    NotBoth(rows, cve.id);
    BelowEmptyVersion(version);
    if HasRow(rows, cve.id) {
      MatchKeepsOpenAt(rows, cves, packages, cve.id, version);
    } else {
      MatchOpensAt(rows, cves, packages, cve);
    }
  }

  // ---------------------------------------------------------------- runs of scans

  datatype Event = ScanWith(packages: Packages) | Resolve(cveId: CveId)

  /** ResolveVulnerability closes the open row by hand. */
  function Resolved(rows: seq<VulnRow>, id: CveId): seq<VulnRow> {
    seq(|rows|, i requires 0 <= i < |rows| =>
      if rows[i].cveId == id && rows[i].status == Open then rows[i].(status := Patched) else rows[i])
  }

  ghost function Run(rows: seq<VulnRow>, cves: seq<Cve>, events: seq<Event>): seq<VulnRow> {
    if events == [] then rows
    else
      var before := Run(rows, cves, events[..|events| - 1]);
      match events[|events| - 1]
      case ScanWith(packages) => Scan(before, cves, packages)
      case Resolve(id) => Resolved(before, id)
  }

  lemma ResolveKeeps(rows: seq<VulnRow>, cves: seq<Cve>, id: CveId)
    requires TableOk(rows, cves)
    ensures TableOk(Resolved(rows, id), cves)
  {
    var after := Resolved(rows, id);
    forall r | r in after ensures RowOk(r, cves) {
      var i :| 0 <= i < |after| && after[i] == r;
      assert rows[i] in rows && RowOk(rows[i], cves);
    }
  }

  lemma ClosedKept(rows: seq<VulnRow>, after: seq<VulnRow>, id: CveId)
    requires |after| == |rows| && HasClosedRow(rows, id)
    requires forall i :: 0 <= i < |rows| ==> after[i].cveId == rows[i].cveId && (rows[i].status != Open ==> after[i].status != Open)
    ensures HasClosedRow(after, id)
  {
    var i :| 0 <= i < |rows| && rows[i].cveId == id && rows[i].status != Open;
    assert after[i] in after;
  }

  /** In every run: one row per CVE, and a closed finding stays closed. */
  lemma {:induction false} ClosedStaysClosed(rows: seq<VulnRow>, cves: seq<Cve>, events: seq<Event>, id: CveId)
    requires TableOk(rows, cves)
    ensures TableOk(Run(rows, cves, events), cves)
    ensures HasClosedRow(rows, id) ==> HasClosedRow(Run(rows, cves, events), id) && !HasOpenRow(Run(rows, cves, events), id)
  {
    if events != [] {
      var n := |events| - 1;
      ClosedStaysClosed(rows, cves, events[..n], id);
      var before := Run(rows, cves, events[..n]);
      match events[n] {
        case ScanWith(packages) =>
          ScanKeeps(before, cves, packages);
          var matched := MatchAll(before, cves, packages);
          MatchAllRow(before, cves, packages, id);
          if HasClosedRow(before, id) {
            ClosedKept(matched, RemediateAll(matched, packages), id);
          }
        case Resolve(other) =>
          ResolveKeeps(before, cves, other);
          if HasClosedRow(before, id) {
            ClosedKept(before, Resolved(before, other), id);
          }
      }
    }
    NotBoth(Run(rows, cves, events), id);
  }

  /** A patched package that is downgraded again is affected and stays unreported. */
  lemma DowngradeIsMissed(cves: seq<Cve>, cve: Cve, downgraded: string)
    requires cves == [cve] && cve.fixedIn != "" && IsAffected(downgraded, cve.fixedIn)
    ensures var rows := [VulnRow(cve.id, cve.package, cve.fixedIn, cve.fixedIn, Patched)];
            && TableOk(rows, cves)
            && !HasOpenRow(Scan(rows, cves, map[cve.package := downgraded]), cve.id)
  {
    var rows := [VulnRow(cve.id, cve.package, cve.fixedIn, cve.fixedIn, Patched)];
    assert TableOk(rows, cves);
    assert rows[0] in rows;
    ScanOpensExactly(rows, cves, map[cve.package := downgraded], cve);
  }

  // ---------------------------------------------------------------- the loops

  class DeviceVulnerabilities {
    var rows: seq<VulnRow>

    constructor (rows: seq<VulnRow>)
      ensures this.rows == rows
    {
      this.rows := rows;
    }

    method MatchVulnerabilities(cves: seq<Cve>, packages: Packages)
      modifies this
      ensures rows == MatchAll(old(rows), cves, packages)
    {
      var n := 0;
      while n < |cves|
        invariant 0 <= n <= |cves|
        invariant rows == MatchAll(old(rows), cves[..n], packages)
      {
        assert cves[..n + 1][..n] == cves[..n];
        MatchCve(cves[n], packages);
        n := n + 1;
      }
      assert cves[..n] == cves;
    }

    method MatchCve(cve: Cve, packages: Packages)
      modifies this
      ensures rows == MatchOne(old(rows), cve, packages)
    {
      if cve.package !in packages {
        return;
      }
      var current := packages[cve.package];
      var cmp := CompareVersions(current, cve.fixedIn);
      if cve.fixedIn != "" && cmp >= 0 {
        return;
      }
      if exists r <- rows :: r.cveId == cve.id && r.status == Open {
        return;
      }
      if !(exists r <- rows :: r.cveId == cve.id) {
        rows := rows + [VulnRow(cve.id, cve.package, current, cve.fixedIn, Open)];
      }
    }

    method RemediateDevice(packages: Packages)
      modifies this
      ensures rows == RemediateAll(old(rows), packages)
    {
      var n := 0;
      while n < |rows|
        invariant 0 <= n <= |rows| == |old(rows)|
        invariant forall i :: 0 <= i < n ==> rows[i] == Remediated(old(rows)[i], packages)
        invariant forall i :: n <= i < |rows| ==> rows[i] == old(rows)[i]
      {
        RemediateRow(n, packages);
        n := n + 1;
      }
    }

    method RemediateRow(n: nat, packages: Packages)
      requires n < |rows|
      modifies this
      ensures rows == old(rows)[n := Remediated(old(rows)[n], packages)]
    {
      var row := rows[n];
      if row.status != Open || row.package !in packages {
        return;
      }
      var newVersion := packages[row.package];
      var cmp := CompareVersions(newVersion, row.fixedIn);
      if newVersion != row.currentVersion && cmp >= 0 {
        rows := rows[n := row.(status := Patched, currentVersion := newVersion)];
      } else if newVersion != row.currentVersion {
        rows := rows[n := row.(currentVersion := newVersion)];
      }
    }

    method ScanDevice(cves: seq<Cve>, packages: Packages)
      modifies this
      ensures rows == Scan(old(rows), cves, packages)
    {
      MatchVulnerabilities(cves, packages);
      RemediateDevice(packages);
    }
  }
}
