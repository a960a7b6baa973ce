/** The byte ranges of a resumable upload: `getparams` cuts a file of `allsize` bytes into
    pieces below 60 MiB and prints a Content-Range header for each. */
module UploadRanges {
  import opened Wrappers
  import opened Decimal

  const LIMIT: nat := 60 * 1024 * 1024

  datatype Range = Range(bstart: nat, bend: nat, cr: string, clen: nat, stime: nat)

  function Separation(allsize: nat): nat {
    if allsize < LIMIT then allsize else LIMIT - 1
  }

  function Header(first: nat, last: nat, size: nat): string {
    "bytes " + Print(first) + "-" + Print(last) + "/" + Print(size)
  }

  /** The ranges follow each other without gap or overlap from byte `lo` up to byte `hi`,
      and each announces its own length. */
  ghost predicate Tiles(ar: seq<Range>, lo: nat, hi: nat) {
    if ar == [] then lo == hi
    else
      && ar[0].bstart == lo <= ar[0].bend
      && ar[0].clen == ar[0].bend + 1 - ar[0].bstart
      && Tiles(ar[1..], ar[0].bend + 1, hi)
  }

  /** A range as the loop makes it for a file of that size. */
  ghost predicate IsPiece(r: Range, allsize: nat) {
    && 0 < r.clen < LIMIT && r.bend < allsize
    && r.cr == Header(r.bstart, r.bend, allsize)
    && r.stime == if allsize < LIMIT then 5000 else 10000
  }

  /** All but the last range have full length, and so has the last when the file goes on behind it. */
  ghost predicate Pieces(ar: seq<Range>, allsize: nat, more: bool) {
    && (forall k :: 0 <= k < |ar| ==> IsPiece(ar[k], allsize))
    && (forall k :: 0 <= k < |ar| - 1 ==> ar[k].clen == LIMIT - 1)
    && (more && |ar| > 0 ==> ar[|ar| - 1].clen == LIMIT - 1)
  }

  lemma PiecesSnoc(ar: seq<Range>, allsize: nat, r: Range, more: bool)
    requires Pieces(ar, allsize, true) && IsPiece(r, allsize) && (more ==> r.clen == LIMIT - 1)
    ensures Pieces(ar + [r], allsize, more)
  {
  }

  method GetParams(allsize: nat) returns (ar: seq<Range>)
    ensures Tiles(ar, 0, allsize)
    ensures forall r :: r in ar ==> 0 < r.clen < 62914560 && r.bend < allsize
    ensures forall k :: 0 <= k < |ar| - 1 ==> ar[k].clen == 62914559
    ensures forall r :: r in ar ==> r.cr == Header(r.bstart, r.bend, allsize)
    ensures forall r :: r in ar ==> r.stime == if allsize < 62914560 then 5000 else 10000
  {
    var sep := Separation(allsize);
    ar := [];
    var i := 0;
    while i < allsize
      invariant 0 <= i
      invariant Tiles(ar, 0, if i < allsize then i else allsize)
      invariant Pieces(ar, allsize, i < allsize)
      decreases allsize - i
    {
      var bstart := i;
      var bend := if i + sep - 1 < allsize then i + sep - 1 else allsize - 1;
      var cr := "bytes " + Print(bstart) + "-" + Print(bend) + "/" + Print(allsize);
      var clen := if bend != allsize - 1 then sep else allsize - i;
      var stime := if allsize < LIMIT then 5000 else 10000;
      var r := Range(bstart, bend, cr, clen, stime);
      TilesSnoc(ar, 0, i, r);
      PiecesSnoc(ar, allsize, r, i + sep < allsize);
      ar := ar + [r];
      i := i + sep;
    }
    assert forall r :: r in ar ==> IsPiece(r, allsize);
  }

  lemma {:induction false} TilesSnoc(ar: seq<Range>, lo: nat, hi: nat, r: Range)
    requires Tiles(ar, lo, hi)
    requires r.bstart == hi <= r.bend && r.clen == r.bend + 1 - r.bstart
    ensures Tiles(ar + [r], lo, r.bend + 1)
  {
    if ar == [] {
      assert (ar + [r])[1..] == [];
    } else {
      assert (ar + [r])[1..] == ar[1..] + [r];
      TilesSnoc(ar[1..], ar[0].bend + 1, hi, r);
    }
  }

  /** The bodies of the requests, `f.slice(bstart, bend + 1)`, one after the other. */
  ghost function Bodies<Byte>(ar: seq<Range>, f: seq<Byte>): seq<Byte>
    requires forall r :: r in ar ==> r.bstart <= r.bend < |f|
  {
    if ar == [] then [] else f[ar[0].bstart..ar[0].bend + 1] + Bodies(ar[1..], f)
  }

  ghost function LengthSum(ar: seq<Range>): nat {
    if ar == [] then 0 else ar[0].clen + LengthSum(ar[1..])
  }

  lemma {:induction false} TilesBounds(ar: seq<Range>, lo: nat, hi: nat)
    requires Tiles(ar, lo, hi)
    ensures lo <= hi
    ensures forall r :: r in ar ==> lo <= r.bstart <= r.bend < hi
  {
    if ar != [] {
      TilesBounds(ar[1..], ar[0].bend + 1, hi);
      assert forall r :: r in ar ==> r == ar[0] || r in ar[1..];
    }
  }

  /** The upload sends the whole file and nothing twice. */
  lemma {:induction false} BodiesAreTheFile<Byte>(ar: seq<Range>, lo: nat, f: seq<Byte>)
    requires Tiles(ar, lo, |f|)
    ensures forall r :: r in ar ==> r.bstart <= r.bend < |f|
    ensures lo <= |f| && Bodies(ar, f) == f[lo..]
    ensures LengthSum(ar) == |f| - lo
  {
    TilesBounds(ar, lo, |f|);
    if ar != [] {
      BodiesAreTheFile(ar[1..], ar[0].bend + 1, f);
    }
  }

  /** Every byte of the file lies in exactly one range. */
  lemma {:induction false} EachByteOnce(ar: seq<Range>, lo: nat, hi: nat, b: nat)
    requires Tiles(ar, lo, hi) && lo <= b < hi
    ensures exists k :: 0 <= k < |ar| && ar[k].bstart <= b <= ar[k].bend
    ensures forall j, k :: 0 <= j < k < |ar| ==> !(ar[j].bstart <= b <= ar[j].bend && ar[k].bstart <= b <= ar[k].bend)
  {
    TilesBounds(ar[1..], ar[0].bend + 1, hi);
    if b <= ar[0].bend {
      assert ar[0].bstart <= b <= ar[0].bend;
      forall k | 1 <= k < |ar| ensures b < ar[k].bstart {
        assert ar[1..][k - 1] == ar[k];
        assert ar[k] in ar[1..];
      }
    } else {
      EachByteOnce(ar[1..], ar[0].bend + 1, hi, b);
      var k :| 0 <= k < |ar[1..]| && ar[1..][k].bstart <= b <= ar[1..][k].bend;
      assert ar[k + 1] == ar[1..][k];
      forall j, m | 0 <= j < m < |ar|
        ensures !(ar[j].bstart <= b <= ar[j].bend && ar[m].bstart <= b <= ar[m].bend)
      {
        assert ar[m] == ar[1..][m - 1];
        if j > 0 {
          assert ar[j] == ar[1..][j - 1];
        }
      }
    }
  }

  datatype ContentRange = ContentRange(first: nat, last: nat, complete: nat)

  /** A byte Content-Range field read as section 14.4 of RFC 9110 defines it:
      `bytes first-last/complete`, invalid when last < first or complete <= last. */
  function ParseContentRange(s: string): Option<ContentRange> {
    if |s| < 6 || s[..6] != "bytes " then None
    else
      var halves := Fields(s[6..], '/');
      if |halves| != 2 then None
      else
        var ends := Fields(halves[0], '-');
        if |ends| != 2 then None
        else
          match (Read(ends[0]), Read(ends[1]), Read(halves[1]))
          case (Some(a), Some(b), Some(n)) => if b < a || n <= b then None else Some(ContentRange(a, b, n))
          case _ => None
  }

  /** A header is understood by the receiver exactly when it describes a range inside the file,
      and then as that range. */
  lemma HeaderReadsBack(first: nat, last: nat, size: nat)
    ensures ParseContentRange(Header(first, last, size)) ==
            if first <= last < size then Some(ContentRange(first, last, size)) else None
  {
    var s := Header(first, last, size);
    var range, total := Print(first) + "-" + Print(last), Print(size);
    assert s[..6] == "bytes ";
    assert s[6..] == range + ['/'] + total;
    DigitsHaveNoSep(Print(first), '/');
    DigitsHaveNoSep(Print(last), '/');
    DigitsHaveNoSep(Print(first), '-');
    DigitsHaveNoSep(Print(last), '-');
    DigitsHaveNoSep(total, '/');
    FieldsCons(range, '/', total);
    FieldsNoSep(total, '/');
    FieldsCons(Print(first), '-', Print(last));
    FieldsNoSep(Print(last), '-');
    ReadPadded(first, 0);
    ReadPadded(last, 0);
    ReadPadded(size, 0);
  }

  /** The upload as a whole: the bodies rebuild the file, the announced lengths add up to its size,
      and every header is read back as the range of the body it accompanies. */
  method Upload<Byte>(f: seq<Byte>) returns (ar: seq<Range>)
    ensures forall r :: r in ar ==> r.bstart <= r.bend < |f| && r.clen == |f[r.bstart..r.bend + 1]| < LIMIT
    ensures Bodies(ar, f) == f && LengthSum(ar) == |f|
    ensures forall r :: r in ar ==> ParseContentRange(r.cr) == Some(ContentRange(r.bstart, r.bend, |f|))
    ensures |f| < LIMIT ==> |ar| == (if f == [] then 0 else 1)
  {
    ar := GetParams(|f|);
    BodiesAreTheFile(ar, 0, f);
    TilesLengths(ar, 0, |f|);
    HeadersReadBack(ar, |f|);
    if |ar| > 1 {
      TilesBounds(ar[1..], ar[0].bend + 1, |f|);
      assert ar[1] in ar[1..];
    }
  }

  lemma HeadersReadBack(ar: seq<Range>, size: nat)
    requires forall r :: r in ar ==> r.cr == Header(r.bstart, r.bend, size) && r.bstart <= r.bend < size
    ensures forall r :: r in ar ==> ParseContentRange(r.cr) == Some(ContentRange(r.bstart, r.bend, size))
  {
    forall r | r in ar ensures ParseContentRange(r.cr) == Some(ContentRange(r.bstart, r.bend, size)) {
      HeaderReadsBack(r.bstart, r.bend, size);
    }
  }

  lemma {:induction false} TilesLengths(ar: seq<Range>, lo: nat, hi: nat)
    requires Tiles(ar, lo, hi)
    ensures forall r :: r in ar ==> r.clen == r.bend + 1 - r.bstart
  {
    if ar != [] {
      TilesLengths(ar[1..], ar[0].bend + 1, hi);
      assert forall r :: r in ar ==> r == ar[0] || r in ar[1..];
    }
  }
}
