/**
 * The physical Value Log inventory that recovery checks and trims
 * (src/recovery/topology.rs, the trim loop of src/vlog/writer.rs).
 */
module Topology {
  import opened Basics
  import opened Index

  datatype Geometry = Geometry(pageSize: nat, maxFileSize: nat, maxFileId: nat)

  const PRODUCTION := Geometry(65_536, 0x1_0000_0000, 999_999)

  datatype FileEntry = FileEntry(file: nat, len: nat)

  type Inventory = seq<FileEntry>

  predicate Ordered(files: Inventory, g: Geometry) {
    && (forall i :: 0 <= i < |files| ==> files[i].file <= g.maxFileId && files[i].len <= g.maxFileSize)
    && (forall i, j :: 0 <= i < j < |files| ==> files[i].file < files[j].file)
  }

  method ValidateInventoryOrder(files: Inventory, g: Geometry) returns (ok: bool)
    ensures ok <==> Ordered(files, g)
  {
    var previous: Option<nat> := None;
    for i := 0 to |files|
      invariant forall a :: 0 <= a < i ==> files[a].file <= g.maxFileId && files[a].len <= g.maxFileSize
      invariant forall a, b :: 0 <= a < b < i ==> files[a].file < files[b].file
      invariant previous == if i == 0 then None else Some(files[i - 1].file)
    {
      var entry := files[i];
      if entry.file > g.maxFileId || entry.len > g.maxFileSize || (previous.Some? && previous.value >= entry.file) {
        return false;
      }
      previous := Some(entry.file);
    }
    return true;
  }

  /** Every file before the stable end is present and full, and the end's own file reaches it. */
  predicate StableFiles(files: Inventory, end: VLogEnd, g: Geometry) {
    match end
    case Empty => true
    case At(p) =>
      && p.file <= g.maxFileId && p.offset <= g.maxFileSize
      && p.file < |files|
      && (forall i :: 0 <= i < p.file ==> files[i] == FileEntry(i, g.maxFileSize))
      && files[p.file].file == p.file && files[p.file].len >= p.offset
  }

  method ValidateStableFiles(files: Inventory, end: VLogEnd, g: Geometry) returns (ok: bool)
    ensures ok <==> StableFiles(files, end, g)
  {
    if end.Empty? {
      return true;
    }
    var stable := end.pos;
    if stable.file > g.maxFileId || stable.offset > g.maxFileSize {
      return false;
    }
    var expected := 0;
    for i := 0 to |files|
      invariant expected == i <= stable.file
      invariant forall j :: 0 <= j < i ==> files[j] == FileEntry(j, g.maxFileSize)
    {
      var entry := files[i];
      if entry.file > stable.file {
        return false;
      }
      if entry.file != expected {
        return false;
      }
      if entry.file < stable.file {
        if entry.len != g.maxFileSize {
          return false;
        }
        expected := expected + 1;
      } else {
        return entry.len >= stable.offset;
      }
    }
    return false;
  }

  predicate ContainsEnd(files: Inventory, end: VLogEnd) {
    match end
    case Empty => true
    case At(p) => exists i :: 0 <= i < |files| && files[i].file == p.file && files[i].len >= p.offset
  }

  predicate HasSuffixAfter(files: Inventory, end: VLogEnd) {
    match end
    case Empty => files != []
    case At(p) =>
      exists i :: 0 <= i < |files| && (files[i].file > p.file || (files[i].file == p.file && files[i].len > p.offset))
  }

  function PhysicalTail(files: Inventory): VLogEnd {
    if files == [] then Empty else At(Pos(files[|files| - 1].file, files[|files| - 1].len))
  }

  /** The two tests made before deciding on a trim say together exactly what the final tail check says. */
  lemma {:induction false} TailMatchesExactly(files: Inventory, end: VLogEnd, g: Geometry)
    requires Ordered(files, g)
    ensures ContainsEnd(files, end) && !HasSuffixAfter(files, end) <==> PhysicalTail(files) == end
  {
    if end.At? && files != [] {
      var last := |files| - 1;
      if PhysicalTail(files) == end {
        assert files[last].file == end.pos.file && files[last].len >= end.pos.offset;
      } else if ContainsEnd(files, end) {
        var i :| 0 <= i < |files| && files[i].file == end.pos.file && files[i].len >= end.pos.offset;
        if i < last { assert files[last].file > end.pos.file; }
      }
    }
  }

  /** What a completed trim leaves: nothing after the accepted end. */
  function TrimmedFiles(files: Inventory, end: VLogEnd): Inventory {
    match end
    case Empty => []
    case At(p) =>
      if files == [] then []
      else
        var last := files[|files| - 1];
        if last.file > p.file then TrimmedFiles(files[..|files| - 1], end)
        else if last.file == p.file && last.len > p.offset then files[..|files| - 1] + [FileEntry(p.file, p.offset)]
        else files
  }

  /** Removes files from the back until none lies after the end. */
  method RemoveFilesAfter(files: Inventory, end: VLogEnd) returns (r: Inventory)
    requires end.At? ==> forall i :: 0 <= i < |files| && files[i].file == end.pos.file ==> files[i].len <= end.pos.offset
    ensures r == TrimmedFiles(files, end)
  {
    r := files;
    while r != [] && (end.Empty? || r[|r| - 1].file > end.pos.file)
      invariant r <= files && TrimmedFiles(r, end) == TrimmedFiles(files, end)
      decreases |r|
    {
      r := r[..|r| - 1];
    }
  }

  /** The trim: cut the end's own file to its offset, then remove later files from the back. */
  method TrimFiles(files: Inventory, end: VLogEnd, g: Geometry) returns (r: Result<Inventory>)
    requires Ordered(files, g)
    ensures r.Ok? <==> ContainsEnd(files, end) && (end.At? ==> 0 < end.pos.offset <= g.maxFileSize && end.pos.file <= g.maxFileId)
    ensures r.Ok? ==> r.value == TrimmedFiles(files, end)
    ensures r.Err? ==> r.error == Corruption
  {
    if end.Empty? {
      var emptied := RemoveFilesAfter(files, end);
      return Ok(emptied);
    }
    var p := end.pos;
    if p.file > g.maxFileId || p.offset == 0 || p.offset > g.maxFileSize {
      return Err(Corruption);
    }
    var at: Option<nat> := None;
    for i := 0 to |files|
      invariant at.None? ==> forall j :: 0 <= j < i ==> files[j].file != p.file
      invariant at.Some? ==> at.value < i && files[at.value].file == p.file
    {
      if files[i].file == p.file { at := Some(i); }
    }
    if at.None? || files[at.value].len < p.offset {
      return Err(Corruption);
    }
    var cut := files[at.value := FileEntry(p.file, p.offset)];
    TrimmedForm(files, p, at.value);
    TrimmedForm(cut, p, at.value);
    assert cut[..at.value] == files[..at.value];
    var kept := RemoveFilesAfter(cut, end);
    return Ok(kept);
  }

  /** The closed form of a trim whose end lies in the file at index `at`. */
  lemma {:induction false} TrimmedForm(files: Inventory, p: Pos, at: nat)
    requires at < |files| && files[at].file == p.file && files[at].len >= p.offset
    requires forall i, j :: 0 <= i < j < |files| ==> files[i].file < files[j].file
    ensures TrimmedFiles(files, At(p)) == files[..at] + [FileEntry(p.file, p.offset)]
    decreases |files|
  {
    var n := |files| - 1;
    if at < n {
      assert files[n].file > p.file;
      assert files[..n][..at] == files[..at];
      TrimmedForm(files[..n], p, at);
    } else if files[n].len == p.offset {
      assert files == files[..n] + [FileEntry(p.file, p.offset)];
    }
  }

  /** After a trim the inventory is still ordered and stable, and its tail is the accepted end. */
  lemma {:induction false} TrimReachesEnd(files: Inventory, end: VLogEnd, g: Geometry)
    requires Ordered(files, g) && ContainsEnd(files, end)
    ensures Ordered(TrimmedFiles(files, end), g)
    ensures PhysicalTail(TrimmedFiles(files, end)) == end
    ensures StableFiles(files, end, g) ==> StableFiles(TrimmedFiles(files, end), end, g)
  {
    if end.At? {
      var p := end.pos;
      var at :| 0 <= at < |files| && files[at].file == p.file && files[at].len >= p.offset;
      TrimmedForm(files, p, at);
    }
  }
}
