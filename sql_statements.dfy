/** The statement splitter both setup scripts apply to `supabase-setup.sql`:
    `sql.split(';').map(s => s.trim()).filter(s => s.length > 0 && !s.startsWith('--'))`. */
module SqlStatements {
  import opened Text
  import opened Seqs

  /** The filter's test: a non-empty chunk that does not start with a `--` comment. */
  predicate IsStatement(s: string) {
    |s| > 0 && !StartsWith(s, "--")
  }

  /** `.map(s => s.trim())`. */
  function TrimAll(chunks: seq<string>): (r: seq<string>)
    ensures |r| == |chunks| && forall k :: 0 <= k < |chunks| ==> r[k] == Trim(chunks[k])
  {
    seq(|chunks|, k requires 0 <= k < |chunks| => Trim(chunks[k]))
  }

  /** `.filter(IsStatement)`: the statements among `chunks`, in their order. */
  function KeepStatements(chunks: seq<string>): (r: seq<string>)
    ensures forall s :: s in r ==> s in chunks && IsStatement(s)
    ensures forall c :: c in chunks && IsStatement(c) ==> c in r
    ensures IsSubsequence(r, chunks)
    ensures forall x :: multiset(r)[x] == if IsStatement(x) then multiset(chunks)[x] else 0
  {
    if chunks == [] then []
    else
      assert chunks == [chunks[0]] + chunks[1..];
      if IsStatement(chunks[0]) then [chunks[0]] + KeepStatements(chunks[1..])
      else
        var rest := KeepStatements(chunks[1..]);
        assert rest == [] || rest[0] != chunks[0] by {
          if rest != [] { assert rest[0] in rest; }
        }
        rest
  }

  /** The contract of `KeepStatements` leaves it no freedom: any order-keeping selection of
      `chunks` with exactly the statements' copies is `KeepStatements(chunks)`. */
  lemma KeepStatementsUnique(chunks: seq<string>, r: seq<string>)
    requires IsSubsequence(r, chunks)
    requires forall x :: multiset(r)[x] == if IsStatement(x) then multiset(chunks)[x] else 0
    ensures r == KeepStatements(chunks)
  {
    SelectionUnique(r, KeepStatements(chunks), chunks, IsStatement);
  }

  /** The statements of a SQL text, in source order. */
  function SplitStatements(sql: string): (r: seq<string>)
    ensures IsSubsequence(r, TrimAll(Split(sql, ';')))
  {
    KeepStatements(TrimAll(Split(sql, ';')))
  }

  /** Every statement is non-empty, trimmed, free of `;` and not a `--` comment; every
      trimmed chunk that passes the filter is among them. */
  lemma StatementShape(sql: string)
    ensures forall s :: s in SplitStatements(sql) ==>
      s != "" && IsTrimmed(s) && ';' !in s && !StartsWith(s, "--")
    ensures forall k :: 0 <= k < |Split(sql, ';')| && IsStatement(Trim(Split(sql, ';')[k])) ==>
      Trim(Split(sql, ';')[k]) in SplitStatements(sql)
  {
    var chunks := Split(sql, ';');
    var trimmed := TrimAll(chunks);
    forall s | s in SplitStatements(sql)
      ensures s != "" && IsTrimmed(s) && ';' !in s && !StartsWith(s, "--")
    {
      var k :| 0 <= k < |trimmed| && trimmed[k] == s;
      assert chunks[k] in chunks;
    }
    forall k | 0 <= k < |chunks| && IsStatement(Trim(chunks[k]))
      ensures Trim(chunks[k]) in SplitStatements(sql)
    {
      assert trimmed[k] in trimmed;
    }
  }

  /** Filtering distributes over concatenation. */
  lemma {:induction false} KeepAppend(a: seq<string>, b: seq<string>)
    ensures KeepStatements(a + b) == KeepStatements(a) + KeepStatements(b)
  {
    if a != [] {
      assert (a + b)[0] == a[0];
      assert (a + b)[1..] == a[1..] + b;
      KeepAppend(a[1..], b);
      if IsStatement(a[0]) {
        assert KeepStatements(a + b) == [a[0]] + KeepStatements(a[1..] + b);
        assert KeepStatements(a) == [a[0]] + KeepStatements(a[1..]);
      } else {
        assert KeepStatements(a + b) == KeepStatements(a[1..] + b);
        assert KeepStatements(a) == KeepStatements(a[1..]);
      }
    } else {
      assert a + b == b;
    }
  }

  /** A chunk whose trimmed text starts with `--` is dropped whole, so a statement written
      after a comment line in the same chunk is lost with it: the result is the same as if
      the chunk were absent. */
  lemma CommentChunkDropped(chunks: seq<string>, k: nat)
    requires k < |chunks| && StartsWith(chunks[k], "--")
    ensures KeepStatements(chunks) == KeepStatements(chunks[..k] + chunks[k + 1..])
  {
    var tail := [chunks[k]] + chunks[k + 1..];
    assert chunks == chunks[..k] + tail;
    KeepAppend(chunks[..k], tail);
    KeepAppend(chunks[..k], chunks[k + 1..]);
    assert tail[0] == chunks[k] && !IsStatement(tail[0]);
    assert tail[1..] == chunks[k + 1..];
    assert KeepStatements(tail) == KeepStatements(chunks[k + 1..]);
  }
}
