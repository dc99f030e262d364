/** Hunting the PAC anchor in a stream that arrives in chunks of any size. */
module PacAnchors {
  import opened Text

  type byte = x: int | 0 <= x < 256

  /** b"findproxyforurl" */
  const ANCHOR: seq<byte> := [102, 105, 110, 100, 112, 114, 111, 120, 121, 102, 111, 114, 117, 114, 108]
  const CHUNK_BYTES: nat := 1048576
  const NEWLINE: byte := 10

  function LowerByte(b: byte): byte {
    if 65 <= b <= 90 then b + 32 else b
  }

  /** The anchor stands at `p`, in any letter case. */
  predicate MatchAt(data: seq<byte>, p: nat) {
    p + |ANCHOR| <= |data| && forall k :: 0 <= k < |ANCHOR| ==> LowerByte(data[p + k]) == ANCHOR[k]
  }

  function Newlines(data: seq<byte>): nat {
    if data == [] then 0 else Newlines(data[..|data| - 1]) + if data[|data| - 1] == NEWLINE then 1 else 0
  }

  /** Every occurrence that starts in [lo, hi), ascending, with its line number. */
  function AnchorsIn(data: seq<byte>, lo: nat, hi: nat): seq<(nat, nat)>
    requires hi <= |data|
    decreases hi - lo
  {
    if lo >= hi then []
    else (if MatchAt(data, lo) then [(lo, Newlines(data[..lo]) + 1)] else []) + AnchorsIn(data, lo + 1, hi)
  }

  function Anchors(data: seq<byte>): seq<(nat, nat)> {
    AnchorsIn(data, 0, |data|)
  }

  lemma NewlinesAppend(a: seq<byte>, b: seq<byte>)
    ensures Newlines(a + b) == Newlines(a) + Newlines(b)
  {
    if b == [] {
      EmptyUnit(a);
    } else {
      var n := |b| - 1;
      assert (a + b)[..|a + b| - 1] == a + b[..n];
      NewlinesAppend(a, b[..n]);
    }
  }

  lemma {:induction false} AnchorsSplit(data: seq<byte>, lo: nat, mid: nat, hi: nat)
    requires lo <= mid <= hi <= |data|
    ensures AnchorsIn(data, lo, hi) == AnchorsIn(data, lo, mid) + AnchorsIn(data, mid, hi)
    decreases mid - lo
  {
    if lo < mid {
      AnchorsSplit(data, lo + 1, mid, hi);
      Assoc(if MatchAt(data, lo) then [(lo, Newlines(data[..lo]) + 1)] else [], AnchorsIn(data, lo + 1, mid),
            AnchorsIn(data, mid, hi));
    } else {
      EmptyUnit(AnchorsIn(data, mid, hi));
    }
  }

  lemma {:induction false} NoAnchors(data: seq<byte>, lo: nat, hi: nat)
    requires hi <= |data| && forall p :: lo <= p < hi ==> !MatchAt(data, p)
    ensures AnchorsIn(data, lo, hi) == []
    decreases hi - lo
  {
    if lo < hi { NoAnchors(data, lo + 1, hi); }
  }

  lemma PrefixMatch(data: seq<byte>, n: nat, k: nat)
    requires n <= |data| && k + |ANCHOR| <= n
    ensures MatchAt(data[..n], k) <==> MatchAt(data, k)
  {
  }

  /** Occurrences that end inside a prefix are the prefix's own. */
  lemma {:induction false} PrefixAnchors(data: seq<byte>, n: nat, lo: nat, hi: nat)
    requires n <= |data| && hi <= n && (lo < hi ==> hi + |ANCHOR| - 1 <= n)
    ensures AnchorsIn(data[..n], lo, hi) == AnchorsIn(data, lo, hi)
    decreases hi - lo
  {
    hide MatchAt, Newlines;
    if lo < hi {
      assert data[..n][..lo] == data[..lo];
      PrefixMatch(data, n, lo);
      PrefixAnchors(data, n, lo + 1, hi);
    }
  }

  /** Where the carried bytes start: one byte less than an anchor from the end. */
  function Settled(n: nat): nat {
    if n < |ANCHOR| - 1 then 0 else n - (|ANCHOR| - 1)
  }

  /** Nothing found twice, nothing lost: the anchors of a longer prefix are those of the shorter one and
      those that start in the carried bytes or behind. */
  lemma Resume(data: seq<byte>, n: nat, m: nat)
    requires n <= m <= |data|
    ensures Anchors(data[..m]) == Anchors(data[..n]) + AnchorsIn(data[..m], Settled(n), m)
  {
    var base := Settled(n);
    AnchorsSplit(data[..m], 0, base, m);
    AnchorsSplit(data[..n], 0, base, n);
    assert data[..m][..n] == data[..n];
    PrefixAnchors(data[..m], n, 0, base);
    NoAnchors(data[..n], base, n);
    EmptyUnit(AnchorsIn(data[..n], 0, base));
  }

  /** `window.find(anchor, cursor)` on lowered bytes: the first match, if any. */
  method FindAnchor(window: seq<byte>, cursor: nat) returns (found: Option<nat>)
    ensures found.Some? ==> cursor <= found.value && MatchAt(window, found.value)
    ensures found.Some? ==> forall k :: cursor <= k < found.value ==> !MatchAt(window, k)
    ensures found.None? ==> forall k :: cursor <= k ==> !MatchAt(window, k)
  {
    var p := cursor;
    while p + |ANCHOR| <= |window|
      invariant forall k :: cursor <= k < p ==> !MatchAt(window, k)
    {
      if MatchAt(window, p) {
        return Some(p);
      }
      p := p + 1;
    }
    return None;
  }

  /** The stream gives at most `sizes(k)` bytes on its k-th read (always at least one before its end),
      and no more than asked for. Whatever the sizes, the result is that of one search over the whole
      data within the limit. */
  method IterAnchors(data: seq<byte>, limit: nat, sizes: nat -> nat) returns (found: seq<(nat, nat)>)
    ensures found == Anchors(data[..if limit < |data| then limit else |data|])
  {
    hide MatchAt, AnchorsIn, Newlines, Anchors, Settled;
    found := [];
    var carry: seq<byte> := [];
    var base, linesBefore, consumed, readNo := 0, 0, 0, 0;
    assert data[..0] == [];
    NothingYet();
    SettledNext(0, 0);
    while consumed < limit
      invariant consumed <= limit && consumed <= |data|
      invariant base == Settled(consumed) && base <= consumed && carry == data[base..consumed]
      invariant linesBefore == Newlines(data[..base])
      invariant found == Anchors(data[..consumed])
      decreases |data| - consumed
    {
      var ask := if limit - consumed < CHUNK_BYTES then limit - consumed else CHUNK_BYTES;
      var give := if sizes(readNo) == 0 then 1 else sizes(readNo);
      var n := if give < ask then give else ask;
      n := if n < |data| - consumed then n else |data| - consumed;
      var chunk := data[consumed..consumed + n];
      readNo := readNo + 1;
      if chunk == [] {
        break;
      }
      ghost var was := consumed;
      consumed := consumed + |chunk|;
      var window := carry + chunk;
      Joined(data, base, was, consumed);
      Resume(data, was, consumed);
      var more := SearchWindow(data, base, consumed, window, linesBefore);
      found := found + more;
      var keep := if |ANCHOR| - 1 < |window| then |ANCHOR| - 1 else |window|;
      var settled := |window| - keep;
      CountTo(data, base, settled, window);
      linesBefore := linesBefore + Newlines(window[..settled]);
      carry := window[settled..];
      base := base + settled;
      SettledNext(was, consumed);
    }
    assert consumed == if limit < |data| then limit else |data|;
  }

  lemma Joined(data: seq<byte>, a: nat, b: nat, c: nat)
    requires a <= b <= c <= |data|
    ensures data[a..b] + data[b..c] == data[a..c]
  {
  }

  /** What is kept back: the last bytes of the window, fewer than an anchor has. */
  lemma SettledNext(n: nat, m: nat)
    requires n <= m
    ensures Settled(n) <= n
    ensures var size := m - Settled(n);
            Settled(m) == Settled(n) + size - if |ANCHOR| - 1 < size then |ANCHOR| - 1 else size
  {
  }

  lemma NothingYet()
    ensures Anchors([]) == [] && Newlines([]) == 0
  {
  }

  /** Lines counted up to a place in the window. */
  lemma CountTo(data: seq<byte>, base: nat, k: nat, window: seq<byte>)
    requires base + |window| <= |data| && window == data[base..base + |window|] && k <= |window|
    ensures Newlines(data[..base + k]) == Newlines(data[..base]) + Newlines(window[..k])
  {
    assert data[..base + k] == data[..base] + window[..k];
    NewlinesAppend(data[..base], window[..k]);
  }

  lemma WindowMatch(data: seq<byte>, base: nat, end: nat, window: seq<byte>, k: nat)
    requires base <= end <= |data| && window == data[base..end]
    ensures MatchAt(window, k) <==> MatchAt(data[..end], base + k)
  {
  }

  /** The inner loop: all matches of one window, with file offsets and line numbers. */
  method SearchWindow(data: seq<byte>, base: nat, end: nat, window: seq<byte>, linesBefore: nat)
    returns (found: seq<(nat, nat)>)
    requires base <= end <= |data| && window == data[base..end] && linesBefore == Newlines(data[..base])
    ensures found == AnchorsIn(data[..end], base, end)
  {
    hide MatchAt, AnchorsIn, Newlines;
    found := [];
    var cursor := 0;
    NoAnchors(data[..end], base, base);
    while true
      invariant cursor <= |window| && found == AnchorsIn(data[..end], base, base + cursor)
      decreases |window| - cursor
    {
      var next := FindAnchor(window, cursor);
      forall k: nat ensures MatchAt(window, k) <==> MatchAt(data[..end], base + k) {
        WindowMatch(data, base, end, window, k);
      }
      match next {
        case None =>
          forall p | base + cursor <= p < end ensures !MatchAt(data[..end], p) {
            assert MatchAt(window, p - base) <==> MatchAt(data[..end], base + (p - base));
          }
          NoAnchors(data[..end], base + cursor, end);
          AnchorsSplit(data[..end], base, base + cursor, end);
          EmptyUnit(found);
          return;
        case Some(p) =>
          MatchFits(window, p);
          forall q | base + cursor <= q < base + p ensures !MatchAt(data[..end], q) {
            assert MatchAt(window, q - base) <==> MatchAt(data[..end], base + (q - base));
          }
          NoAnchors(data[..end], base + cursor, base + p);
          AnchorsSplit(data[..end], base, base + cursor, base + p + 1);
          AnchorsSplit(data[..end], base + cursor, base + p, base + p + 1);
          CountTo(data, base, p, window);
          OneAnchor(data[..end], base + p);
          assert data[..end][..base + p] == data[..base + p];
          found := found + [(base + p, linesBefore + Newlines(window[..p]) + 1)];
          EmptyUnit(AnchorsIn(data[..end], base + p, base + p + 1));
          cursor := p + 1;
      }
    }
  }

  lemma MatchFits(window: seq<byte>, p: nat)
    requires MatchAt(window, p)
    ensures p < |window|
  {
  }

  lemma OneAnchor(data: seq<byte>, p: nat)
    requires p < |data| && MatchAt(data, p)
    ensures AnchorsIn(data, p, p + 1) == [(p, Newlines(data[..p]) + 1)]
  {
  }

  /** What the list of anchors says: exactly the matching positions, ascending and so each once, each
      with one plus the line breaks before it. */
  lemma AnchorsExact(data: seq<byte>, lo: nat, hi: nat)
    requires hi <= |data|
    ensures var r := AnchorsIn(data, lo, hi);
            && (forall p, l :: (p, l) in r <==> lo <= p < hi && MatchAt(data, p) && l == Newlines(data[..p]) + 1)
            && (forall i, j :: 0 <= i < j < |r| ==> r[i].0 < r[j].0)
  {
    hide MatchAt, Newlines, AnchorsIn;
    AnchorsAscend(data, lo, hi);
    var r := AnchorsIn(data, lo, hi);
    forall p, l ensures (p, l) in r <==> lo <= p < hi && MatchAt(data, p) && l == Newlines(data[..p]) + 1 {
      AnchorListed(data, lo, hi, p, l);
    }
  }

  lemma {:induction false} AnchorListed(data: seq<byte>, lo: nat, hi: nat, p: int, l: int)
    requires hi <= |data|
    ensures (p, l) in AnchorsIn(data, lo, hi) <==>
            lo <= p < hi && MatchAt(data, p) && l == Newlines(data[..p]) + 1
    decreases hi - lo
  {
    hide MatchAt, Newlines;
    if lo < hi { AnchorListed(data, lo + 1, hi, p, l); }
  }

  lemma {:induction false} AnchorsAscend(data: seq<byte>, lo: nat, hi: nat)
    requires hi <= |data|
    ensures Ascending(AnchorsIn(data, lo, hi), lo)
    decreases hi - lo
  {
    hide MatchAt, Newlines;
    if lo < hi {
      AnchorsAscend(data, lo + 1, hi);
      var rest := AnchorsIn(data, lo + 1, hi);
      AscendingFirst((lo, Newlines(data[..lo]) + 1), rest, lo);
      EmptyUnit(rest);
    }
  }

  ghost predicate Ascending(r: seq<(nat, nat)>, lo: nat) {
    (forall j :: 0 <= j < |r| ==> lo <= r[j].0) && (forall i, j :: 0 <= i < j < |r| ==> r[i].0 < r[j].0)
  }

  lemma AscendingFirst(x: (nat, nat), rest: seq<(nat, nat)>, lo: nat)
    requires Ascending(rest, lo + 1) && x.0 == lo
    ensures Ascending([x] + rest, lo) && Ascending(rest, lo)
  {
    var r := [x] + rest;
    assert forall j :: 0 < j < |r| ==> r[j] == rest[j - 1];
    forall j | 0 <= j < |rest| ensures lo <= rest[j].0 {}
  }
}
