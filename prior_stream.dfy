/** The textual prior format: for each binding a header line
    `priorIndex=<k>` followed by one distribution block. A header is seen
    here as the tokens its line splits into on '='; a block as the
    distribution object it is read into. */
module PriorStream {
  import opened Decimal
  import opened Distributions

  /** One prior as it stands in the stream. */
  datatype PriorEntry = PriorEntry(header: seq<string>, dist: Dist)

  const HeaderKey: string := "priorIndex"

  /** The header check as CDist.h writes it: a line is refused only when it
      has more than two tokens or its first token is not HeaderKey. It reads
      token 0 unconditionally, so it needs at least one token. */
  predicate AsWrittenAccepts(tokens: seq<string>)
    requires |tokens| >= 1
  {
    !(|tokens| > 2 || tokens[0] != HeaderKey)
  }

  /** The line `priorIndex`, with no '=', passes the check as written, and
      yet has no token 1 for the index to be read from. */
  lemma AsWrittenAcceptsMissingIndex()
    ensures var tokens := [HeaderKey];
      AsWrittenAccepts(tokens) && |tokens| < 2
  {
  }

  /** The corrected check: exactly two tokens, the first HeaderKey. */
  predicate HeaderAccepted(tokens: seq<string>)
  {
    |tokens| == 2 && tokens[0] == HeaderKey
  }

  /** The corrected check accepts exactly the lines the written one accepts
      that have an index token and nothing after it. */
  lemma HeaderAcceptedIsStricter(tokens: seq<string>)
    requires |tokens| >= 1
    ensures HeaderAccepted(tokens) <==> AsWrittenAccepts(tokens) && |tokens| == 2
  {
  }

  /** The parameter index an accepted header names, read with atol. */
  function HeaderIndex(tokens: seq<string>): int
    requires HeaderAccepted(tokens)
  {
    Atol(tokens[1])
  }

  /** The tokens of the header line written for a binding on index k. */
  function Header(k: nat): seq<string>
  {
    [HeaderKey, Format(k)]
  }

  /** A written header is accepted and names the index it was written for. */
  lemma HeaderRoundTrip(k: nat)
    ensures HeaderAccepted(Header(k)) && HeaderIndex(Header(k)) == k
  {
    AtolOfFormat(k);
  }

  /** How many of the first n entries a reader takes in before it stops: the
      entries up to the first refused header. */
  function ReadCount(es: seq<PriorEntry>, n: nat): (r: nat)
    requires n <= |es|
    ensures r <= n
    ensures forall i :: 0 <= i < r ==> HeaderAccepted(es[i].header)
    ensures r < n ==> !HeaderAccepted(es[r].header)
  {
    if n == 0 || !HeaderAccepted(es[0].header) then 0 else 1 + ReadCount(es[1..], n - 1)
  }

  /** ReadCount is the only count with those two properties: every header
      before it accepted, and the one at it (if any) refused. */
  lemma ReadCountUnique(es: seq<PriorEntry>, n: nat, r: nat)
    requires r <= n <= |es|
    requires forall i :: 0 <= i < r ==> HeaderAccepted(es[i].header)
    requires r < n ==> !HeaderAccepted(es[r].header)
    ensures ReadCount(es, n) == r
  {
  }

  /** The parameter indices the first m headers of es name, in order; each
      of them accepted. */
  function Indices(es: seq<PriorEntry>, m: nat): (ks: seq<int>)
    requires m <= |es| && forall i :: 0 <= i < m ==> HeaderAccepted(es[i].header)
    ensures |ks| == m
  {
    if m == 0 then [] else Indices(es, m - 1) + [HeaderIndex(es[m - 1].header)]
  }

  /** The distributions of the first m entries of es, in order. */
  function Dists(es: seq<PriorEntry>, m: nat): (ds: seq<Dist>)
    requires m <= |es|
    ensures |ds| == m
  {
    if m == 0 then [] else Dists(es, m - 1) + [es[m - 1].dist]
  }

  /** One step of a reader that has taken in i of the first n entries, after
      bindings ks0 and distributions ds0: it goes on past entry i exactly
      when that header is accepted, and then entry i's binding is appended
      to what it has read. */
  lemma ReadStep(es: seq<PriorEntry>, n: nat, i: nat, ks0: seq<int>, ds0: seq<Dist>)
    requires i < n <= |es| && i <= ReadCount(es, n)
    ensures HeaderAccepted(es[i].header) <==> i < ReadCount(es, n)
    ensures HeaderAccepted(es[i].header) ==>
      && ks0 + Indices(es, i) + [HeaderIndex(es[i].header)] == ks0 + Indices(es, i + 1)
      && ds0 + Dists(es, i) + [es[i].dist] == ds0 + Dists(es, i + 1)
  {
    if HeaderAccepted(es[i].header) {
      assert ks0 + Indices(es, i) + [HeaderIndex(es[i].header)] == ks0 + (Indices(es, i) + [HeaderIndex(es[i].header)]);
      assert ds0 + Dists(es, i) + [es[i].dist] == ds0 + (Dists(es, i) + [es[i].dist]);
    }
  }

  /** The entries written for the bindings (idx[i], ds[i]) read back as those
      same bindings, all of them, in the same order. */
  lemma {:induction false} WrittenEntriesReadBack(es: seq<PriorEntry>, idx: seq<int>, ds: seq<Dist>)
    requires |es| == |idx| == |ds|
    requires forall i :: 0 <= i < |idx| ==> idx[i] >= 0 && es[i] == PriorEntry(Header(idx[i]), ds[i])
    ensures forall i :: 0 <= i < |es| ==> HeaderAccepted(es[i].header) && HeaderIndex(es[i].header) == idx[i]
    ensures ReadCount(es, |es|) == |es|
    ensures Indices(es, |es|) == idx && Dists(es, |es|) == ds
  {
    forall i | 0 <= i < |es|
      ensures HeaderAccepted(es[i].header) && HeaderIndex(es[i].header) == idx[i]
    {
      HeaderRoundTrip(idx[i]);
    }
    ReadCountUnique(es, |es|, |es|);
    IndicesAre(es, idx, |es|);
    DistsAre(es, ds, |es|);
    assert idx[..|es|] == idx && ds[..|es|] == ds;
  }

  /** The first m indices are the first m headers' indices, position by
      position. */
  lemma {:induction false} IndicesAre(es: seq<PriorEntry>, idx: seq<int>, m: nat)
    requires m <= |es| && m <= |idx|
    requires forall i :: 0 <= i < m ==> HeaderAccepted(es[i].header) && HeaderIndex(es[i].header) == idx[i]
    ensures Indices(es, m) == idx[..m]
  {
    if m > 0 {
      IndicesAre(es, idx, m - 1);
      assert idx[..m] == idx[..m - 1] + [idx[m - 1]];
    }
  }

  /** The first m distributions are the first m entries' distributions,
      position by position. */
  lemma {:induction false} DistsAre(es: seq<PriorEntry>, ds: seq<Dist>, m: nat)
    requires m <= |es| && m <= |ds|
    requires forall i :: 0 <= i < m ==> es[i].dist == ds[i]
    ensures Dists(es, m) == ds[..m]
  {
    if m > 0 {
      DistsAre(es, ds, m - 1);
      assert ds[..m] == ds[..m - 1] + [ds[m - 1]];
    }
  }
}
