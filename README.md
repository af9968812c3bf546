# Priors and regularisation in CDist.h, in Dafny

This project models the prior machinery of the distribution library's header
`src/CDist.h`:

- the distribution base class `CDist`:
  - its parameter store;
  - its lazily grown list of parameter names, padded with `"no name"`;
  - its type tag and instance name;
  - the defaults `getGradInputs` and `logProb(const CMatrix&)`, which lift the
    per-value derivative and log-density to whole matrices;
- the binding store `CParamPriors`. It holds two parallel lists, the
  distributions and the parameter index each one is bound to.
- the `CRegularisable` capability:
  - bulk `getParams`/`setParams`;
  - `priorLogProb`, the sum of every prior's log-density at its parameter;
  - `addPriorGrad`, which adds each prior's gradient into the caller's
    gradient vector, so stacked priors on one index all add in;
  - `addPrior`/`clearPriors` and the getters;
  - the textual prior format read and written by
    `readPriorsFromStream`/`writePriorsToStream`.

The modules are:

- `Sums`: pure sums, accumulated in the order the loops accumulate them. This
  includes the per-index share that `addPriorGrad` adds into each gradient
  entry.
- `Decimal`: printing an index in decimal, and C's `atol`.
- `Distributions`: the `Dist` class. A family's log-density and its
  derivative are the `Law` each object carries. The `Law` stands in for the
  C++ virtual overrides.
- `PriorStream`: the prior header check, and what a reader takes in.
- `Priors`:
  - the `ParamPriors` class;
  - the `Regularisable` host, which holds its parameters in `params`;
  - two client methods stating the round trips.

Matrices are modelled as follows:

- a 1 x N `CMatrix` is an `array<real>`;
- a general `CMatrix` is an `array2<real>`.

Contract violations are `requires` clauses. These are the `assert`s on index
ranges and shapes. `FileFormatError` is the status `ReadStatus.FileFormatError`.

The following members have no `ensures` clause, so they have no row below:

- the plain getters: `Dist.GetNumParams`, `GetParam`, `GetParamName`,
  `GetType`, `GetName`;
- `ParamPriors.GetNumDists` and `GetDistType`;
- `Regularisable.GetNumParams`, `GetParam`, `GetNumPriors`, `GetPrior`,
  `GetPriorType`, `GetPriorGradInput`.

Each returns the field it names, except `GetPriorGradInput`, which returns
the derivative of binding `ind`'s distribution at `val`. Their index
preconditions are copied from
the source's asserts: `getParamName` needs `index < |paramNames|`, and
`getPrior`/`getDistType` need `0 <= ind < count`.

`Dist.LogProb` and `Dist.GradInput` have no `ensures` clause either. They
stand for the pure virtual `logProb(double)` (src/CDist.h:61) and
`getGradInput(double)` (src/CDist.h:49). Each applies the object's `Law` to
its parameters and the given value.

The prior format's definitions have no `ensures` clause either. Their
properties are the lemmas in the table:

- `PriorStream.AsWrittenAccepts` is the header check as written at
  src/CDist.h:280.
- `PriorStream.HeaderAccepted` is the corrected check, the one the model's
  reader applies (see Findings).
- `PriorStream.HeaderIndex` is `atol(tokens[1])` at src/CDist.h:283.
- `PriorStream.Header` is the header line written at src/CDist.h:267.
- `Decimal.Atol` is C's `atol`, used at src/CDist.h:283. It skips leading
  white space, takes one optional sign, then reads the longest run of
  digits.

The documented prior-stream format and error handling differ from the code
in two places:

- **The header check.** The documented format is a header that splits into
  exactly two tokens. The code refuses a header only when it has more than
  two tokens or the wrong key. The model's reader follows the code, except
  for headers with fewer than two tokens. There the code reads a missing
  token, and the model refuses the header (see Findings).
- **Failed reads.** The documented error handling has no partial successes.
  In the code, priors read before a refused header stay attached. The model
  follows the code: `ReadPriorsFromStream` states that they stay.

## Model

| member | source | states |
|---|---|---|
| `Distributions.Dist.constructor` | src/CDist.h:16-25 | A new distribution has its tag, its law and its initial parameters. Its parameter count is the number of initial parameters. It has no parameter names yet. |
| `Distributions.Dist.SetParam` | src/CDist.h:26-27 | Only parameter `paramNo` changes, and it becomes `val`. Names, count, tag and instance name stay as they were. |
| `Distributions.Dist.GetGradInputs` | src/CDist.h:51-58 | Requires `g` and `x` to have equal rows and equal columns. Afterwards every `g[i,j]` is the derivative at the old `x[i,j]`. This holds even when `g` and `x` are the same matrix. |
| `Distributions.Dist.MatrixLogProb` | src/CDist.h:62-69 | Returns the row-major sum of the per-entry log-densities. This equals the sum over all entries flattened. It is 0 for a matrix with no rows or no columns. |
| `Distributions.Dist.SetParamName` | src/CDist.h:70-82 | Requires `0 <= index < nParams`. Afterwards the name at `index` is `name` and the list has at least `index + 1` entries. Earlier names are unchanged. Newly opened gaps hold `"no name"`. |
| `Distributions.Dist.SetType` | src/CDist.h:90-93 | Only the tag changes. |
| `Distributions.Dist.SetName` | src/CDist.h:98-101 | Only the instance name changes. |
| `Sums.GridSumIsFlatSum` | src/CDist.h:62-69 | Summing row by row equals summing all entries as one sequence. |
| `Sums.GridSumOfEmptyRows` | src/CDist.h:62-69 | A matrix without columns contributes 0. |
| `Priors.ParamPriors.AddDist` | src/CDist.h:189-194 | Requires `index >= 0`. Appends exactly the binding `(dist, index)`. Both lists grow together. |
| `Priors.ParamPriors.ClearDists` | src/CDist.h:196-200 | No bindings remain. |
| `Priors.ParamPriors.GetDistIndex` | src/CDist.h:207-212 | Requires `0 <= ind < count`. The index it returns is never negative. |
| `Priors.Regularisable.SetParam` | src/CDist.h:231 | The host's store changes at `paramNo` only. |
| `Priors.Regularisable.GetParams` | src/CDist.h:235-241 | Requires a vector of length N. Afterwards `p[i]` is parameter `i` for every `i`. |
| `Priors.Regularisable.SetParams` | src/CDist.h:242-248 | Requires a vector of length N. Afterwards parameter `i` is `p[i]` for every `i`. Bindings stay valid. |
| `Priors.ParamsRoundTrip` | src/CDist.h:235-248 | `setParams` of what `getParams` produced leaves every parameter unchanged. |
| `Priors.Regularisable.AddPriorGrad` | src/CDist.h:250-261 | Requires a gradient of length N. Each entry `k` gains the share of `k`: the sum of the gradients of the priors bound to `k`. An entry with no prior keeps its value. The gradient's total grows by the sum of all prior gradients. |
| `Sums.IndexSumUnbound` | src/CDist.h:250-261 | An index that no binding targets receives nothing. |
| `Sums.IndexSumAppend` | src/CDist.h:250-261 | Shares accumulate over successive bindings and never replace each other. |
| `Sums.StackedShare` | src/CDist.h:250-261 | Two priors on one index with the same gradient `v` add `2v` there. |
| `Sums.IndexSumStep` | src/CDist.h:255-260 | One loop step adds binding `i`'s gradient to the share of the index it targets, and to no other share. |
| `Sums.AccumulatedShares` | src/CDist.h:250-261 | A vector that gained the share of each of its indices gained exactly `Shares`. An index with no binding kept its value. |
| `Sums.AccumulatedTotal` | src/CDist.h:250-261 | When every binding targets an index below N, such a vector's total grows by the sum of all contributions. |
| `Sums.SharesAddUp` | src/CDist.h:250-261 | When every binding targets an index below N, the shares of all N entries add up to the total contribution. Nothing is lost or counted twice. |
| `Priors.Regularisable.PriorLogProb` | src/CDist.h:288-298 | Returns the sum, in insertion order, of each binding's log-density at its parameter. With no priors it is 0. The host is not modified. |
| `Sums.SumAppend` | src/CDist.h:288-298 | A sum over bindings splits over concatenation. Together with `AddPrior`, adding a prior adds exactly its term to `priorLogProb`. |
| `Priors.Regularisable.GetPriorIndex` | src/CDist.h:315-318 | Requires `0 <= ind < count`. The index it returns is always one of the host's parameters. |
| `Priors.Regularisable.AddPrior` | src/CDist.h:323-329 | Requires `0 <= index < N`. It appends one binding at the end, so the count grows by 1. The last prior is `dist` and its index is `index`. Earlier bindings are unchanged. The log-probability terms gain exactly the new prior's term. |
| `Priors.Regularisable.ClearPriors` | src/CDist.h:331-335 | No priors remain. |
| `Priors.Regularisable.WritePriorsToStream` | src/CDist.h:263-270 | For each binding in insertion order, writes the header `priorIndex=<k>` followed by that binding's distribution. |
| `Decimal.Format` | src/CDist.h:267 | An index is printed as a non-empty run of decimal digits. There is no leading zero unless the index is 0. An index below 10 prints as one digit. |
| `Decimal.LeadingDigits` | src/CDist.h:283 | Returns the longest digit prefix, the part of the text atol reads. |
| `Decimal.AtolOfFormat` | src/CDist.h:267-283 | atol of a printed index gives that index back. |
| `PriorStream.HeaderRoundTrip` | src/CDist.h:267-283 | A written header passes the header check and names the index it was written for. |
| `PriorStream.AsWrittenAcceptsMissingIndex` | src/CDist.h:279-283 | The check as written accepts the line `priorIndex`, which has no index token. |
| `PriorStream.HeaderAcceptedIsStricter` | src/CDist.h:279-283 | The corrected check accepts exactly the lines that the written check accepts and that have two tokens. |
| `PriorStream.ReadCount` | src/CDist.h:275-285 | The reader takes in the headers before the first refused one. Every header before that point is accepted. The one at that point, if any, is refused. |
| `PriorStream.ReadStep` | src/CDist.h:274-285 | A reader that has taken in `i` entries goes on past entry `i` exactly when its header is accepted. The bindings it has read then grow by entry `i`'s binding. |
| `PriorStream.WrittenEntriesReadBack` | src/CDist.h:263-285 | What is written for bindings `(idx[i], ds[i])` passes every header check. It reads back as the same indices and distributions, in the same order. |
| `Priors.Regularisable.ReadPriorsFromStream` | src/CDist.h:271-286 | Reads `numPriors` entries and appends one binding per accepted header, in stream order. A refused header stops the read with `FileFormatError`. Bindings appended before it are kept. |
| `Priors.PriorsRoundTrip` | src/CDist.h:263-286 | Writing one host's priors and reading them into a host with no priors and N parameters reproduces every binding in order, and the read succeeds. The distribution half holds because a distribution block is carried as the object that was written. The reader's host therefore shares the writer's `Dist` objects, whereas `readDistFromStream` would allocate new ones. This is not a proof that `writeDistToStream` and `readDistFromStream` round-trip. |

## Left out

- `CGaussianDist`, `CGammaDist`, `CWangDist` (src/CDist.h:119-180): only their
  declarations exist, and their math uses `log`, Γ and floating point. Each
  family's `logProb`/`getGradInput` is the `Law` its object carries. It is
  left uninterpreted.
- `CDist::getGradParams` (src/CDist.h:28-33): it prints an error and exits.
  No caller may reach it, so it is not modelled.
- `setInitParam`, `writeParamsToStream`, `readParamsFromStream`,
  `writeDistToStream` and `readDistFromStream` have no bodies in the header.
  A distribution block in the stream is therefore carried as the
  distribution it is read into.
- `ndlstrutil::tokenise` is not part of this model. A header arrives already
  split into tokens. The model assumes that the line `priorIndex=<k>` splits
  into exactly `["priorIndex", "<k>"]`.
- Decimal.Atol: does not model overflow of `long`, because integers are
  unbounded here.
- Priors.Regularisable.ReadPriorsFromStream: requires at least `numPriors`
  entries. Reading past the end of the stream is undefined in the source.
- Priors.Regularisable.ReadPriorsFromStream: does not narrow the index
  from `long` to `int`. At src/CDist.h:283 the `atol` result is passed to
  `addPrior(CDist*, int)`, and that conversion wraps a value outside `int`.
  In the model, a header whose index exceeds `int` counts as out of range,
  a contract violation, instead of wrapping onto some parameter. The
  conversion is implementation-defined, and `long`'s width depends on the
  platform.
- Priors.Regularisable.ReadPriorsFromStream: refuses a header with fewer
  than two tokens, where the source reads a missing token (see Findings).
- `setNumParams` (src/CDist.h:22-25) is folded into the constructor. The
  parameter count is fixed after construction.
- The host's `getParam`/`setParam` are abstract in the source. They are
  modelled as a faithful store `params`.
- `getGradParams` of the host is left out. It is the host's own gradient.
- Floating point: all values are exact reals. The sums take their terms in
  the source's order, but not its grouping. `GridSum` adds each row's total
  at once, where src/CDist.h:67 adds entry by entry. `AddPriorGrad` states
  `g[k]` as its old value plus the whole share of `k`, where
  src/CDist.h:258 adds each term into `g[k]` in turn. Grouping matters only
  under rounding, which is not modelled.
- The MATLAB bridge (`toMxArray`, `fromMxArray` and the functions around
  them) is foreign interop.
- Ownership is left out: `clone`, destruction, and the fact that `clear`
  does not free the distributions. Bindings hold references to `Dist`
  objects.
- `CParamPriors` exposes its two vectors publicly. The model assumes only
  the operations above change them, so the lists keep equal length.
- `DISTVERSION`, `CTransformable` and `CMatinterface` carry no behaviour.

## Findings

| source | as written | input that shows it | evidently intended | confidence | as-written member | corrected member |
|---|---|---|---|---|---|---|
| src/CDist.h:280-283 | The header is refused only when `tokens.size() > 2` or `tokens[0] != "priorIndex"`. `tokens[1]` is then read unconditionally. | The header line `priorIndex` has no `=`. It splits into one token and passes the check. `tokens[1]` is then read out of range. An empty line reads `tokens[0]` out of range. | Refuse any header that does not split into exactly two tokens with the first `priorIndex`. | not executed; high | `PriorStream.AsWrittenAcceptsMissingIndex` | `PriorStream.HeaderAccepted` (properties proved in `PriorStream.HeaderAcceptedIsStricter` and `Priors.Regularisable.ReadPriorsFromStream`) |
