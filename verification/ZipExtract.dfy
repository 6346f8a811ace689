/** Safe extraction of skill archives (zen_claw/agent/skills.py): entry names are judged before
    anything is written. Paths are lists of components; names are taken as already in normal form C. */
module ZipExtract {
  import opened Options
  import opened Sorting
  import opened Text

  type Path = seq<string>

  const MAX_FILES := 100
  const MAX_DEPTH := 10
  const MAX_TOTAL := 10 * 1024 * 1024
  const MAX_SINGLE := 5 * 1024 * 1024

  /** A zip entry; a name that ends in a slash is a directory. */
  datatype Entry = Entry(name: string, size: int) {
    predicate IsDir() { name != "" && name[|name| - 1] == '/' }
  }

  function Slashes(name: string): (r: string)
    ensures |r| == |name|
    ensures forall i :: 0 <= i < |r| ==> r[i] == if name[i] == '\\' then '/' else name[i]
  {
    if name == "" then "" else [if name[0] == '\\' then '/' else name[0]] + Slashes(name[1..])
  }

  /** `name.split("/")`: never empty. */
  function Pieces(name: string): (r: seq<string>)
    ensures |r| >= 1
  {
    if name == "" then [""]
    else
      var rest := Pieces(name[1..]);
      if name[0] == '/' then [""] + rest else [[name[0]] + rest[0]] + rest[1..]
  }

  /** `Path(name).parts` of a relative name: empty and `.` pieces vanish. */
  function Parts(pieces: seq<string>): seq<string> {
    if pieces == [] then []
    else if pieces[0] == "" || pieces[0] == "." then Parts(pieces[1..])
    else [pieces[0]] + Parts(pieces[1..])
  }

  /** `resolve()` below an already resolved directory without symlinks: `..` goes up, the root stays. */
  function Walk(at: Path, parts: seq<string>): Path
    decreases |parts|
  {
    if parts == [] then at
    else if parts[0] == ".." then Walk(if at == [] then [] else at[..|at| - 1], parts[1..])
    else Walk(at + [parts[0]], parts[1..])
  }

  predicate StartsWith(s: string, prefix: string) {
    |prefix| <= |s| && s[..|prefix|] == prefix
  }

  predicate Contains(s: string, sub: string) {
    StartsWith(s, sub) || (s != "" && Contains(s[1..], sub))
  }

  /** `_validate_zip_entry`: where the entry will be written, or nothing when its name is refused. */
  function Validate(name: string, base: Path): Option<Path> {
    var raw := Slashes(name);
    if raw == "" then None
    else if StartsWith(raw, "/") || StartsWith(raw, "../") || Contains(raw, "/../") then None
    else if |Parts(Pieces(raw))| > MAX_DEPTH then None
    else
      var dst := Walk(base, Parts(Pieces(raw)));
      if base <= dst then Some(dst) else None
  }

  // --- what the name checks amount to ---

  /** `..` occurs at or after position `k`, but not as the last piece. */
  ghost predicate ClimbsFrom(pieces: seq<string>, k: nat) {
    exists i :: k <= i < |pieces| - 1 && pieces[i] == ".."
  }

  lemma FirstPiece(raw: string)
    ensures StartsWith(raw, "../") <==> Pieces(raw)[0] == ".." && |Pieces(raw)| > 1
  {
    if |raw| >= 2 && raw[..2] == ".." {
      assert Pieces(raw)[0] == [raw[0]] + ([raw[1]] + Pieces(raw[1..][1..])[0]);
      assert raw[1..][1..] == raw[2..];
      assert |Pieces(raw)| == |Pieces(raw[2..])|;
      if |raw| > 2 { assert raw[2..][0] == raw[2] && raw[..3] == ".." + [raw[2]]; }
    }
  }

  lemma {:induction false} InnerPieces(raw: string)
    ensures Contains(raw, "/../") <==> ClimbsFrom(Pieces(raw), 1)
  {
    if raw != "" {
      var rest := raw[1..];
      var all, tail := Pieces(raw), Pieces(rest);
      InnerPieces(rest);
      FirstPiece(rest);
      if raw[0] == '/' {
        assert all[1..] == tail;
        assert StartsWith(raw, "/../") <==> StartsWith(rest, "../") by {
          if |raw| >= 4 { assert raw[..4] == [raw[0]] + rest[..3]; }
        }
        assert ClimbsFrom(all, 1) <==> ClimbsFrom(tail, 0) by { ShiftClimb(all, tail); }
      } else {
        assert !StartsWith(raw, "/../") by { if |raw| >= 4 { assert raw[..4][0] == raw[0]; } }
        assert all[1..] == tail[1..];
        assert forall i :: 1 <= i < |all| ==> all[i] == all[1..][i - 1] == tail[i];
      }
    }
  }

  lemma ShiftClimb(all: seq<string>, tail: seq<string>)
    requires all != [] && all[1..] == tail
    ensures ClimbsFrom(all, 1) <==> ClimbsFrom(tail, 0)
  {
    if ClimbsFrom(all, 1) {
      var i :| 1 <= i < |all| - 1 && all[i] == "..";
      assert tail[i - 1] == "..";
    }
    if ClimbsFrom(tail, 0) {
      var i :| 0 <= i < |tail| - 1 && tail[i] == "..";
      assert all[i + 1] == "..";
    }
  }

  /** The two substring tests find exactly the `..` pieces that are not last. */
  lemma ClimbIffSubstring(raw: string)
    ensures StartsWith(raw, "../") || Contains(raw, "/../") <==> ClimbsFrom(Pieces(raw), 0)
  {
    FirstPiece(raw);
    InnerPieces(raw);
  }

  ghost predicate Plain(parts: seq<string>) {
    forall i :: 0 <= i < |parts| ==> parts[i] != ".."
  }

  /** Below the base: the parts, or all but the last two when the last one goes up. */
  function Below(parts: seq<string>): Path {
    if parts != [] && parts[|parts| - 1] == ".." && |parts| >= 2 then parts[..|parts| - 2] else parts
  }

  lemma {:induction false} WalkPlain(at: Path, parts: seq<string>)
    requires Plain(parts)
    ensures Walk(at, parts) == at + parts
    decreases |parts|
  {
    if parts != [] {
      WalkPlain(at + [parts[0]], parts[1..]);
      assert at + [parts[0]] + parts[1..] == at + parts;
    } else {
      assert at + parts == at;
    }
  }

  lemma {:induction false} WalkConcat(at: Path, a: seq<string>, b: seq<string>)
    ensures Walk(at, a + b) == Walk(Walk(at, a), b)
    decreases |a|
  {
    if a == [] {
      assert a + b == b;
    } else {
      assert (a + b)[1..] == a[1..] + b;
      WalkConcat(if a[0] == ".." then (if at == [] then [] else at[..|at| - 1]) else at + [a[0]], a[1..], b);
    }
  }

  lemma {:induction false} OnlyLastClimbs(pieces: seq<string>)
    requires !ClimbsFrom(pieces, 0)
    ensures Parts(pieces) == [] || Plain(Parts(pieces)[..|Parts(pieces)| - 1])
  {
    if pieces != [] {
      assert forall i :: 0 <= i < |pieces[1..]| - 1 ==> pieces[1..][i] == pieces[i + 1];
      OnlyLastClimbs(pieces[1..]);
      var rest := Parts(pieces[1..]);
      if |pieces| > 1 { assert pieces[0] != ".."; } else { assert pieces[1..] == []; }
      if rest != [] && Parts(pieces) != rest {
        assert Parts(pieces)[..|Parts(pieces)| - 1] == [pieces[0]] + rest[..|rest| - 1];
      }
    }
  }

  lemma WalkLanding(base: Path, parts: seq<string>)
    requires parts == [] || Plain(parts[..|parts| - 1])
    requires base != []
    ensures parts != [".."] ==> Walk(base, parts) == base + Below(parts)
    ensures parts == [".."] ==> !(base <= Walk(base, parts))
  {
    if parts == [] || parts[|parts| - 1] != ".." {
      assert Plain(parts);
      WalkPlain(base, parts);
    } else {
      var init := parts[..|parts| - 1];
      assert parts == init + [".."];
      WalkConcat(base, init, [".."]);
      WalkPlain(base, init);
      assert Walk(base + init, [".."]) == (base + init)[..|base + init| - 1] by { WalkUp(base + init); }
      if init != [] { assert (base + init)[..|base + init| - 1] == base + init[..|init| - 1]; }
    }
  }

  lemma WalkUp(at: Path)
    requires at != []
    ensures Walk(at, [".."]) == at[..|at| - 1]
  {
  }

  /** The text that pieces make with slashes between them. */
  function Slashed(pieces: seq<string>): string {
    if pieces == [] then "" else if |pieces| == 1 then pieces[0] else pieces[0] + "/" + Slashed(pieces[1..])
  }

  /** A name is its pieces with slashes between them, and no piece holds a slash. */
  lemma {:induction false} PiecesMean(name: string)
    ensures Slashed(Pieces(name)) == name
    ensures forall i :: 0 <= i < |Pieces(name)| ==> '/' !in Pieces(name)[i]
  {
    if name != "" {
      PiecesMean(name[1..]);
      var rest := Pieces(name[1..]);
      if name[0] == '/' {
        assert Pieces(name)[1..] == rest;
        assert Slashed(Pieces(name)) == "" + "/" + Slashed(rest);
      } else {
        SlashedLonger(name[0], rest);
      }
      assert [name[0]] + name[1..] == name;
    }
  }

  lemma SlashedLonger(c: char, pieces: seq<string>)
    requires pieces != []
    ensures Slashed([[c] + pieces[0]] + pieces[1..]) == [c] + Slashed(pieces)
  {
    hide *;
    if |pieces| == 1 {
      LastPiece(pieces[0]);
      LastPiece([c] + pieces[0]);
      assert pieces == [pieces[0]] && [[c] + pieces[0]] + pieces[1..] == [[c] + pieces[0]];
    } else {
      PieceInFront(pieces[0], pieces[1..]);
      PieceInFront([c] + pieces[0], pieces[1..]);
      FirstAndRest(pieces);
      Regroup([c], pieces[0], "/");
      Regroup([c], pieces[0] + "/", Slashed(pieces[1..]));
    }
  }

  lemma LastPiece(piece: string)
    ensures Slashed([piece]) == piece
  {
  }

  lemma PieceInFront(piece: string, pieces: seq<string>)
    requires pieces != []
    ensures Slashed([piece] + pieces) == piece + "/" + Slashed(pieces)
  {
    assert ([piece] + pieces)[1..] == pieces;
  }

  lemma {:induction false} PartsSnoc(pieces: seq<string>, last: string)
    ensures Parts(pieces + [last]) == Parts(pieces) + (if last == "" || last == "." then [] else [last])
  {
    if pieces == [] {
      assert pieces + [last] == [last] && [last][1..] == [];
    } else {
      assert (pieces + [last])[1..] == pieces[1..] + [last];
      PartsSnoc(pieces[1..], last);
    }
  }

  /** The parts of a path are its pieces without the empty ones and the dots, in order. */
  lemma {:induction false} PartsMean(pieces: seq<string>) returns (at: seq<nat>)
    ensures Selects(pieces, Parts(pieces), at, (p: string) => p != "" && p != ".")
    decreases |pieces|
  {
    hide *;
    var keep := (p: string) => p != "" && p != ".";
    at := [];
    if pieces == [] {
      NoParts();
      SelectsNothing(keep);
    } else {
      var init, last := pieces[..|pieces| - 1], pieces[|pieces| - 1];
      var sofar := PartsMean(init);
      PartsSnoc(init, last);
      SelectsLast(init, Parts(init), sofar, keep, last);
      assert init + [last] == pieces && Parts(init) + [] == Parts(init);
      at := if keep(last) then sofar + [|init|] else sofar;
    }
  }

  lemma NoParts()
    ensures Parts([]) == []
  {
  }

  /** When an entry name is acceptable, in terms of its pieces alone. */
  ghost predicate Acceptable(name: string) {
    var raw := Slashes(name);
    && raw != "" && raw[0] != '/' && !ClimbsFrom(Pieces(raw), 0)
    && |Parts(Pieces(raw))| <= 10 && Parts(Pieces(raw)) != [".."]
  }

  /** The name checks accept a name exactly when no piece but the last is `..` (and that one not
      alone), it is relative, and at most ten parts deep; the entry then lands under the base, where
      its own parts say, whatever the base is. */
  lemma ValidateMeaning(name: string, base: Path)
    requires base != []
    ensures Validate(name, base) == if Acceptable(name) then Some(base + Below(Parts(Pieces(Slashes(name))))) else None
  {
    hide Walk, Contains, Parts, Pieces, Slashes;
    var raw := Slashes(name);
    ClimbIffSubstring(raw);
    if raw != "" { assert StartsWith(raw, "/") <==> raw[0] == '/'; }
    if !ClimbsFrom(Pieces(raw), 0) {
      OnlyLastClimbs(Pieces(raw));
      WalkLanding(base, Parts(Pieces(raw)));
    }
  }

  /** No accepted entry escapes: its path extends the base by at most ten components, none of them `..`. */
  lemma Contained(name: string, base: Path)
    requires base != [] && Validate(name, base).Some?
    ensures var dst := Validate(name, base).value;
            base <= dst && |dst| <= |base| + 10 && Plain(dst[|base|..])
  {
    hide Walk, Contains, Parts, Pieces, Slashes, Validate;
    ValidateMeaning(name, base);
    var parts := Parts(Pieces(Slashes(name)));
    OnlyLastClimbs(Pieces(Slashes(name)));
    assert (base + Below(parts))[|base|..] == Below(parts);
    if parts != [] && parts[|parts| - 1] == ".." && |parts| >= 2 {
      assert Below(parts) == parts[..|parts| - 1][..|parts| - 2];
    }
  }

  // --- the whole archive ---

  function Size(e: Entry): nat {
    if e.IsDir() || e.size < 0 then 0 else e.size
  }

  function FileCount(entries: seq<Entry>): nat {
    if entries == [] then 0
    else FileCount(entries[..|entries| - 1]) + (if entries[|entries| - 1].IsDir() then 0 else 1)
  }

  function TotalSize(entries: seq<Entry>): nat {
    if entries == [] then 0 else TotalSize(entries[..|entries| - 1]) + Size(entries[|entries| - 1])
  }

  /** Every entry passes the path, depth and size checks, and so does the archive. */
  ghost predicate AllPass(entries: seq<Entry>, base: Path) {
    && (forall i :: 0 <= i < |entries| ==> Validate(entries[i].name, base).Some? && Size(entries[i]) <= 5242880)
    && FileCount(entries) <= 100 && TotalSize(entries) <= 10485760
  }

  /** What one more entry adds: a name that ends in a slash counts for nothing, a negative size for zero. */
  lemma EntryCounts(entries: seq<Entry>, e: Entry)
    ensures var file := e.name == "" || e.name[|e.name| - 1] != '/';
            && FileCount(entries + [e]) == FileCount(entries) + (if file then 1 else 0)
            && TotalSize(entries + [e]) == TotalSize(entries) + (if file && e.size > 0 then e.size else 0)
            && (Size(e) <= 5242880 <==> file ==> e.size <= 5242880)
  {
    Snoc(entries, e);
    hide FileCount, TotalSize;
  }

  lemma Snoc(entries: seq<Entry>, e: Entry)
    ensures FileCount(entries + [e]) == FileCount(entries) + (if e.IsDir() then 0 else 1)
    ensures TotalSize(entries + [e]) == TotalSize(entries) + Size(e)
  {
    assert (entries + [e])[..|entries|] == entries;
  }

  lemma {:induction false} Grow(entries: seq<Entry>, k: nat)
    requires k <= |entries|
    ensures FileCount(entries[..k]) <= FileCount(entries) && TotalSize(entries[..k]) <= TotalSize(entries)
    decreases |entries|
  {
    if k < |entries| {
      var init := entries[..|entries| - 1];
      assert init[..k] == entries[..k];
      Grow(init, k);
    } else {
      assert entries[..k] == entries;
    }
  }

  /** What fails on a prefix fails on the archive. */
  lemma PrefixFails(entries: seq<Entry>, base: Path, k: nat)
    requires k <= |entries| && !AllPass(entries[..k], base)
    ensures !AllPass(entries, base)
  {
    hide Validate, FileCount, TotalSize;
    Grow(entries, k);
    if AllPass(entries, base) {
      forall i | 0 <= i < k ensures Validate(entries[..k][i].name, base).Some? && Size(entries[..k][i]) <= 5242880 {
        assert entries[..k][i] == entries[i];
      }
      assert false;
    }
  }

  /** `_safe_extract_zip`: all entries are judged first; what is written, in order. */
  method SafeExtract(entries: seq<Entry>, base: Path) returns (ok: bool, written: seq<Path>)
    ensures ok <==> AllPass(entries, base)
    ensures !ok ==> written == []
    ensures ok ==> |written| == |entries|
    ensures ok ==> forall i :: 0 <= i < |entries| ==> Validate(entries[i].name, base) == Some(written[i])
  {
    hide Validate, FileCount, TotalSize;
    var validated: seq<Path>, total, count := [], 0, 0;
    written := [];
    Nothing();
    for i := 0 to |entries|
      invariant count == FileCount(entries[..i]) && total == TotalSize(entries[..i])
      invariant AllPass(entries[..i], base) && |validated| == i && written == []
      invariant forall k :: 0 <= k < i ==> Validate(entries[k].name, base) == Some(validated[k])
    {
      var e := entries[i];
      assert entries[..i + 1] == entries[..i] + [e];
      Snoc(entries[..i], e);
      var dst := Validate(e.name, base);
      var size := Size(e);
      if dst.None? || (!e.IsDir() && (count + 1 > MAX_FILES || size > MAX_SINGLE || total + size > MAX_TOTAL)) {
        assert entries[..i + 1][i] == e;
        PrefixFails(entries, base, i + 1);
        return false, [];
      }
      if !e.IsDir() { count, total := count + 1, total + size; }
      validated := validated + [dst.value];
    }
    assert entries[..|entries|] == entries;
    for i := 0 to |validated|
      invariant written == validated[..i]
    {
      written := written + [validated[i]];
    }
    return true, written;
  }

  lemma Nothing()
    ensures FileCount([]) == 0 && TotalSize([]) == 0
  {
  }

  /** A successful extraction stays inside the target directory and within every limit. */
  lemma ExtractionIsContained(entries: seq<Entry>, base: Path, i: nat)
    requires base != [] && AllPass(entries, base) && i < |entries|
    ensures base <= Validate(entries[i].name, base).value && Plain(Validate(entries[i].name, base).value[|base|..])
    ensures FileCount(entries) <= 100 && TotalSize(entries) <= 10485760
    ensures !entries[i].IsDir() ==> entries[i].size <= 5242880
  {
    Contained(entries[i].name, base);
  }
}
