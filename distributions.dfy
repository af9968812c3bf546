/** The distribution base class CDist: a parameter store, per-parameter
    display names, a type tag and an instance name, and the defaults that
    lift the per-value log-density and its derivative to whole matrices. */
module Distributions {
  import opened Sums

  /** A family's density as the rest of the library sees it: given the
      distribution's current parameter values, the log-density at x and its
      derivative with respect to x. Each object carries the law of its
      family, as each C++ object carries its family's overrides of
      logProb(double) and getGradInput(double). */
  datatype Law = Law(logProb: seq<real> -> real -> real, gradInput: seq<real> -> real -> real)

  /** The name given to the gaps that naming a later parameter opens up. */
  const NoName: string := "no name"

  /** The entries of a matrix, as a sequence of rows. */
  ghost function Grid(x: array2<real>): (rows: seq<seq<real>>)
    reads x
    ensures |rows| == x.Length0
    ensures forall i :: 0 <= i < x.Length0 ==> |rows[i]| == x.Length1
    ensures forall i, j :: 0 <= i < x.Length0 && 0 <= j < x.Length1 ==> rows[i][j] == x[i, j]
  {
    seq(x.Length0, i requires 0 <= i < x.Length0 reads x =>
      seq(x.Length1, j requires 0 <= j < x.Length1 reads x => x[i, j]))
  }

  class Dist {
    var nParams: int
    var distType: string
    var distName: string
    var paramNames: seq<string>
    /** The family's own parameters (a Gaussian's precision, a Gamma's a and b, ...). */
    var values: seq<real>
    const law: Law

    /** The parameter count matches the store, and names exist only for
        parameters that exist. */
    ghost predicate Valid()
      reads this
    {
      nParams == |values| && |paramNames| <= nParams
    }

    /** What every family's constructor does: fix the tag, the law and the
        initial parameters; no names yet. */
    constructor (distType: string, law: Law, init: seq<real>)
      ensures Valid()
      ensures this.distType == distType && this.law == law && values == init
      ensures nParams == |init| && paramNames == [] && distName == ""
    {
      this.distType := distType;
      this.law := law;
      values := init;
      nParams := |init|;
      paramNames := [];
      distName := "";
    }

    function GetNumParams(): int
      reads this
    {
      nParams
    }

    function GetParam(paramNo: int): real
      requires Valid() && 0 <= paramNo < nParams
      reads this
    {
      values[paramNo]
    }

    method SetParam(val: real, paramNo: int)
      requires Valid() && 0 <= paramNo < nParams
      modifies this
      ensures Valid()
      ensures values == old(values)[paramNo := val]
      ensures nParams == old(nParams) && paramNames == old(paramNames)
      ensures distType == old(distType) && distName == old(distName)
    {
      values := values[paramNo := val];
    }

    /** The log-density at x under the current parameters. */
    function LogProb(x: real): real
      reads this
    {
      law.logProb(values)(x)
    }

    /** The derivative of LogProb at x with respect to x. */
    function GradInput(x: real): real
      reads this
    {
      law.gradInput(values)(x)
    }

    /** Fills g, entry by entry in row-major order, with the derivative at the
        matching entry of x. g and x may be the same matrix: each entry is read
        before it is overwritten. */
    method GetGradInputs(g: array2<real>, x: array2<real>)
      requires g.Length0 == x.Length0 && g.Length1 == x.Length1
      modifies g
      ensures forall i, j :: 0 <= i < g.Length0 && 0 <= j < g.Length1 ==> g[i, j] == GradInput(old(x[i, j]))
    {
      var i := 0;
      while i < g.Length0
        invariant 0 <= i <= g.Length0
        invariant forall a, b :: 0 <= a < i && 0 <= b < g.Length1 ==> g[a, b] == GradInput(old(x[a, b]))
        invariant forall a, b :: i <= a < x.Length0 && 0 <= b < x.Length1 ==> x[a, b] == old(x[a, b])
      {
        var j := 0;
        while j < g.Length1
          invariant 0 <= j <= g.Length1
          invariant forall a, b :: 0 <= a < i && 0 <= b < g.Length1 ==> g[a, b] == GradInput(old(x[a, b]))
          invariant forall b :: 0 <= b < j ==> g[i, b] == GradInput(old(x[i, b]))
          invariant forall b :: j <= b < x.Length1 ==> x[i, b] == old(x[i, b])
          invariant forall a, b :: i < a < x.Length0 && 0 <= b < x.Length1 ==> x[a, b] == old(x[a, b])
        {
          g[i, j] := GradInput(x[i, j]);
          j := j + 1;
        }
        i := i + 1;
      }
    }

    /** The log-probability of a matrix of values: the per-entry
        log-densities added in row-major order; an empty matrix gives 0. */
    method MatrixLogProb(x: array2<real>) returns (ll: real)
      ensures ll == GridSum(law.logProb(values), Grid(x))
      ensures ll == RowSum(law.logProb(values), Flatten(Grid(x)))
      ensures x.Length0 == 0 || x.Length1 == 0 ==> ll == 0.0
    {
      ghost var f := law.logProb(values);
      ghost var rows := Grid(x);
      ll := 0.0;
      var i := 0;
      while i < x.Length0
        invariant 0 <= i <= x.Length0
        invariant ll == GridSum(f, rows[..i])
      {
        var j := 0;
        while j < x.Length1
          invariant 0 <= j <= x.Length1
          invariant ll == GridSum(f, rows[..i]) + RowSum(f, rows[i][..j])
        {
          assert rows[i][..j + 1][..j] == rows[i][..j];
          ll := ll + LogProb(x[i, j]);
          j := j + 1;
        }
        assert rows[i][..j] == rows[i];
        assert rows[..i + 1][..i] == rows[..i];
        i := i + 1;
      }
      assert rows[..i] == rows;
      GridSumIsFlatSum(f, rows);
      if x.Length1 == 0 {
        GridSumOfEmptyRows(f, rows);
      }
    }

    /** Names parameter `index`, growing the name list when needed and
        filling any gap it opens with NoName. */
    method SetParamName(name: string, index: int)
      requires Valid() && 0 <= index < nParams
      modifies this
      ensures Valid()
      ensures |paramNames| == if index < |old(paramNames)| then |old(paramNames)| else index + 1
      ensures paramNames[index] == name
      ensures forall j :: 0 <= j < |old(paramNames)| && j != index ==> paramNames[j] == old(paramNames)[j]
      ensures forall j :: |old(paramNames)| <= j < index ==> paramNames[j] == NoName
      ensures nParams == old(nParams) && values == old(values)
      ensures distType == old(distType) && distName == old(distName)
    {
      if |paramNames| == index {
        paramNames := paramNames + [name];
      } else {
        if |paramNames| < index {
          paramNames := paramNames + seq(index + 1 - |paramNames|, _ => NoName);
        }
        paramNames := paramNames[index := name];
      }
    }

    function GetParamName(index: int): string
      requires 0 <= index < |paramNames|
      reads this
    {
      paramNames[index]
    }

    method SetType(name: string)
      modifies this
      ensures distType == name
      ensures nParams == old(nParams) && values == old(values) && paramNames == old(paramNames)
      ensures distName == old(distName)
    {
      distType := name;
    }

    function GetType(): string
      reads this
    {
      distType
    }

    method SetName(name: string)
      modifies this
      ensures distName == name
      ensures nParams == old(nParams) && values == old(values) && paramNames == old(paramNames)
      ensures distType == old(distType)
    {
      distName := name;
    }

    function GetName(): string
      reads this
    {
      distName
    }
  }
}
