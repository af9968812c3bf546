/** Priors over a model's parameters: the binding store CParamPriors and the
    CRegularisable capability, whose default operations marshal a host's
    parameters, fold its priors' log-probabilities into one number, add
    their gradients into a caller's gradient vector, and write and read the
    priors as text. */
module Priors {
  import opened Sums
  import opened Distributions
  import opened PriorStream

  /** An ordered list of bindings, held as two parallel sequences:
      binding i puts dists[i] on parameter distIndex[i]. The same index may
      be bound more than once. */
  class ParamPriors {
    var dists: seq<Dist>
    var distIndex: seq<int>

    ghost predicate Valid()
      reads this
    {
      |dists| == |distIndex| && forall i :: 0 <= i < |distIndex| ==> distIndex[i] >= 0
    }

    constructor ()
      ensures Valid() && dists == [] && distIndex == []
    {
      dists := [];
      distIndex := [];
    }

    /** Appends the binding (dist, index) after the existing ones. */
    method AddDist(dist: Dist, index: int)
      requires Valid() && index >= 0
      modifies this
      ensures Valid()
      ensures dists == old(dists) + [dist] && distIndex == old(distIndex) + [index]
    {
      distIndex := distIndex + [index];
      dists := dists + [dist];
    }

    method ClearDists()
      modifies this
      ensures Valid() && GetNumDists() == 0
      ensures dists == [] && distIndex == []
    {
      distIndex := [];
      dists := [];
    }

    /** The family tag of binding ind's distribution. */
    function GetDistType(ind: int): string
      requires 0 <= ind < GetNumDists()
      reads this, dists
    {
      dists[ind].distType
    }

    /** The parameter index binding ind targets; never negative. */
    function GetDistIndex(ind: int): (k: int)
      requires Valid() && 0 <= ind < GetNumDists()
      reads this
      ensures k >= 0
    {
      distIndex[ind]
    }

    function GetNumDists(): int
      reads this
    {
      |dists|
    }
  }

  /** The outcome of reading a prior stream. */
  datatype ReadStatus = Loaded | FileFormatError

  /** A model whose parameters can carry priors. Its getParam/setParam are
      a faithful store: `params` holds the parameter vector; its length, the
      parameter count, never changes. */
  class Regularisable {
    var params: seq<real>
    const distArray: ParamPriors

    /** Every binding targets one of the host's parameters. */
    ghost predicate Valid()
      reads this, distArray
    {
      distArray.Valid() && forall i :: 0 <= i < |distArray.distIndex| ==> distArray.distIndex[i] < |params|
    }

    constructor (init: seq<real>)
      ensures Valid() && params == init && fresh(distArray)
      ensures distArray.dists == [] && distArray.distIndex == []
    {
      params := init;
      distArray := new ParamPriors();
    }

    function GetNumParams(): int
      reads this
    {
      |params|
    }

    function GetParam(paramNo: int): real
      requires 0 <= paramNo < |params|
      reads this
    {
      params[paramNo]
    }

    method SetParam(val: real, paramNo: int)
      requires 0 <= paramNo < |params|
      modifies this
      ensures params == old(params)[paramNo := val]
    {
      params := params[paramNo := val];
    }

    /** Copies the parameters into the 1 x N vector p. */
    method GetParams(p: array<real>)
      requires p.Length == GetNumParams()
      modifies p
      ensures p[..] == params
    {
      var i := 0;
      while i < p.Length
        invariant 0 <= i <= p.Length
        invariant p[..i] == params[..i]
      {
        p[i] := GetParam(i);
        i := i + 1;
      }
    }

    /** Sets every parameter from the 1 x N vector p, one setParam per entry. */
    method SetParams(p: array<real>)
      requires Valid() && p.Length == GetNumParams()
      modifies this
      ensures Valid()
      ensures params == p[..]
    {
      var i := 0;
      while i < p.Length
        invariant 0 <= i <= p.Length && |params| == p.Length
        invariant params[..i] == p[..i]
      {
        SetParam(p[i], i);
        i := i + 1;
      }
    }

    /** The log-probability of each binding's distribution at the parameter
        it is bound to, in binding order. */
    function LogProbTerms(): (t: seq<real>)
      requires Valid()
      reads this, distArray, distArray.dists
      ensures |t| == |distArray.dists|
      ensures forall i :: 0 <= i < |t| ==> t[i] == distArray.dists[i].LogProb(params[distArray.distIndex[i]])
    {
      seq(|distArray.dists|, i requires 0 <= i < |distArray.dists| == |distArray.distIndex| && 0 <= distArray.distIndex[i] < |params|
          reads this, distArray, distArray.dists =>
        distArray.dists[i].LogProb(params[distArray.distIndex[i]]))
    }

    /** The gradient each binding's distribution contributes at the parameter
        it is bound to, in binding order. */
    function GradTerms(): (t: seq<real>)
      requires Valid()
      reads this, distArray, distArray.dists
      ensures |t| == |distArray.dists|
      ensures forall i :: 0 <= i < |t| ==> t[i] == distArray.dists[i].GradInput(params[distArray.distIndex[i]])
    {
      seq(|distArray.dists|, i requires 0 <= i < |distArray.dists| == |distArray.distIndex| && 0 <= distArray.distIndex[i] < |params|
          reads this, distArray, distArray.dists =>
        distArray.dists[i].GradInput(params[distArray.distIndex[i]]))
    }

    /** The prior log-probability: the sum over bindings, in insertion order;
        0 when there are no priors. */
    method PriorLogProb() returns (l: real)
      requires Valid()
      ensures l == Sum(LogProbTerms())
      ensures GetNumPriors() == 0 ==> l == 0.0
    {
      ghost var terms := LogProbTerms();
      l := 0.0;
      var i := 0;
      while i < |distArray.distIndex|
        invariant 0 <= i <= |distArray.distIndex|
        invariant l == Sum(terms[..i])
      {
        var param := GetParam(distArray.distIndex[i]);
        assert terms[..i + 1][..i] == terms[..i];
        l := l + distArray.dists[i].LogProb(param);
        i := i + 1;
      }
      assert terms[..i] == terms;
    }

    /** Adds, into each entry k of the 1 x N gradient g, the gradients of the
        priors bound to parameter k: g is never cleared, entries without a
        prior keep their value, and priors stacked on one index all add in. */
    method AddPriorGrad(g: array<real>)
      requires Valid() && g.Length == GetNumParams()
      modifies g
      ensures forall k :: 0 <= k < g.Length ==> g[k] == old(g[k]) + Shares(distArray.distIndex, GradTerms(), g.Length)[k]
      ensures forall k :: 0 <= k < g.Length && k !in distArray.distIndex ==> g[k] == old(g[k])
      ensures Sum(g[..]) == Sum(old(g[..])) + Sum(GradTerms())
    {
      ghost var terms := GradTerms();
      ghost var idx := distArray.distIndex;
      var i := 0;
      while i < |distArray.distIndex|
        invariant 0 <= i <= |idx|
        invariant forall k :: 0 <= k < g.Length ==> g[k] == old(g[k]) + IndexSum(idx[..i], terms[..i], k)
      {
        var param := GetParam(distArray.distIndex[i]);
        IndexSumStep(idx, terms, i);
        g[distArray.distIndex[i]] := g[distArray.distIndex[i]] + GetPriorGradInput(param, i);
        i := i + 1;
      }
      assert idx[..i] == idx && terms[..i] == terms;
      assert distArray.distIndex == idx && GradTerms() == terms;
      AccumulatedShares(g[..], old(g[..]), idx, terms);
      AccumulatedTotal(g[..], old(g[..]), idx, terms);
    }

    /** Writes one header and one distribution block per binding, in binding
        order. */
    method WritePriorsToStream() returns (out: seq<PriorEntry>)
      requires Valid()
      ensures |out| == GetNumPriors()
      ensures forall i :: 0 <= i < |out| ==> out[i] == PriorEntry(Header(distArray.distIndex[i]), distArray.dists[i])
    {
      out := [];
      var i := 0;
      while i < |distArray.distIndex|
        invariant 0 <= i <= |distArray.distIndex|
        invariant |out| == i
        invariant forall j :: 0 <= j < i ==> out[j] == PriorEntry(Header(distArray.distIndex[j]), distArray.dists[j])
      {
        out := out + [PriorEntry(Header(distArray.distIndex[i]), distArray.dists[i])];
        i := i + 1;
      }
    }

    /** Reads numPriors priors from the stream, adding each as it is read.
        A refused header stops the read with FileFormatError; the priors
        added before it stay. An index outside the host's parameters is a
        contract violation, as in AddPrior. */
    method ReadPriorsFromStream(entries: seq<PriorEntry>, numPriors: int) returns (status: ReadStatus)
      requires Valid() && numPriors <= |entries|
      requires forall i :: 0 <= i < ReadCount(entries, if numPriors < 0 then 0 else numPriors) ==>
        0 <= HeaderIndex(entries[i].header) < |params|
      modifies distArray
      ensures Valid()
      ensures var n := if numPriors < 0 then 0 else numPriors;
        var r := ReadCount(entries, n);
        && status == (if r == n then Loaded else FileFormatError)
        && distArray.distIndex == old(distArray.distIndex) + Indices(entries, r)
        && distArray.dists == old(distArray.dists) + Dists(entries, r)
    {
      ghost var n := if numPriors < 0 then 0 else numPriors;
      ghost var r := ReadCount(entries, n);
      ghost var idx0, ds0 := distArray.distIndex, distArray.dists;
      var i := 0;
      while i < numPriors
        invariant 0 <= i <= r
        invariant Valid()
        invariant distArray.distIndex == idx0 + Indices(entries, i)
        invariant distArray.dists == ds0 + Dists(entries, i)
      {
        var tokens := entries[i].header;
        ReadStep(entries, n, i, idx0, ds0);
        if !HeaderAccepted(tokens) {
          return FileFormatError;
        }
        var prior := entries[i].dist;
        AddPrior(prior, HeaderIndex(tokens));
        i := i + 1;
      }
      return Loaded;
    }

    function GetNumPriors(): int
      reads this, distArray
    {
      distArray.GetNumDists()
    }

    function GetPrior(ind: int): Dist
      requires 0 <= ind < GetNumPriors()
      reads this, distArray
    {
      distArray.dists[ind]
    }

    function GetPriorType(ind: int): string
      requires 0 <= ind < GetNumPriors()
      reads this, distArray, distArray.dists
    {
      distArray.GetDistType(ind)
    }

    /** The parameter binding ind targets: always one of the host's parameters. */
    function GetPriorIndex(ind: int): (k: int)
      requires Valid() && 0 <= ind < GetNumPriors()
      reads this, distArray
      ensures 0 <= k < |params|
    {
      distArray.GetDistIndex(ind)
    }

    function GetPriorGradInput(val: real, ind: int): real
      requires 0 <= ind < GetNumPriors()
      reads this, distArray, distArray.dists
    {
      distArray.dists[ind].GradInput(val)
    }

    /** Binds dist to parameter index, after the existing bindings. */
    method AddPrior(dist: Dist, index: int)
      requires Valid() && 0 <= index < GetNumParams()
      modifies distArray
      ensures Valid()
      ensures distArray.dists == old(distArray.dists) + [dist]
      ensures distArray.distIndex == old(distArray.distIndex) + [index]
      ensures GetNumPriors() == old(GetNumPriors()) + 1
      ensures GetPrior(GetNumPriors() - 1) == dist && GetPriorIndex(GetNumPriors() - 1) == index
      ensures LogProbTerms() == old(LogProbTerms()) + [dist.LogProb(params[index])]
    {
      distArray.distIndex := distArray.distIndex + [index];
      distArray.dists := distArray.dists + [dist];
    }

    method ClearPriors()
      modifies distArray
      ensures Valid() && GetNumPriors() == 0
      ensures distArray.dists == [] && distArray.distIndex == []
    {
      distArray.distIndex := [];
      distArray.dists := [];
    }
  }

  /** setParams(getParams()) changes nothing: the vector getParams fills,
      written back, leaves every parameter as it was. */
  method ParamsRoundTrip(host: Regularisable)
    requires host.Valid()
    modifies host
    ensures host.Valid() && host.params == old(host.params)
  {
    var p := new real[host.GetNumParams()];
    host.GetParams(p);
    host.SetParams(p);
  }

  /** Writing the priors of one host and reading them into another host with
      no priors and as many parameters reproduces every binding, in order. */
  method PriorsRoundTrip(src: Regularisable, dst: Regularisable) returns (status: ReadStatus)
    requires src.Valid() && dst.Valid()
    requires dst.GetNumPriors() == 0 && dst.GetNumParams() == src.GetNumParams()
    modifies dst.distArray
    ensures status == Loaded
    ensures dst.distArray.distIndex == old(src.distArray.distIndex)
    ensures dst.distArray.dists == old(src.distArray.dists)
  {
    var out := src.WritePriorsToStream();
    WrittenEntriesReadBack(out, src.distArray.distIndex, src.distArray.dists);
    assert out[..|out|] == out;
    status := dst.ReadPriorsFromStream(out, |out|);
  }
}
