# Potential I/O and multipole expansions, modelled in Dafny

This project models two pieces of a galactic-dynamics package.

**The potential codec** (`gary/potential/io.py`). It saves a potential object
as a YAML document with three keys and rebuilds it from one:

- `class`: the name of the potential class;
- `units`: the unit strings of its unit system, in order;
- `parameters`: its parameter mapping, written only when non-empty.

`from_dict` looks up both required keys and parses every unit. It then
coerces every parameter value to `float` **in place, in the caller's dict**.
Finally it finds the class by name and calls it. `to_dict` is the inverse.
`read` accepts a path, literal YAML text or a stream; `write` accepts a path
or a stream.

**The multipole expansion** (`gala/potential/potential/builtin/multipole.c`).
The potential and its gradient are sums over coefficient pairs (S_lm, T_lm)
with 0 <= m <= l <= lmax. Key facts about that code:

- A single running counter `i` walks the pairs in triangular order.
- Pairs whose two coefficients are both 0 are skipped, but the counter still
  advances over them.
- The static entry points unpack a flat `double *pars` array: a header,
  then interleaved coefficients.
- In the time-evolving variant (`mpetd_*`), every coefficient is a
  polynomial in t. The coefficients of those polynomials follow a header of
  per-pair degrees, and a running offset `k_stride` walks over them.

Files:

- `wrappers.dfy`: `Option`.
- `yaml_value.dfy`: YAML values. A mapping is an insertion-ordered list of
  entries, so iteration order is deterministic as in a Python dict, and
  lookup finds the first entry with a key.
- `float_coercion.dfy`: Python's `float(v)` on YAML values, including the
  decimal text forms it accepts.
- `potential_io.dfy`: the codec.
  - `FromDict` is a method on a `Document` object, the caller's dict. Its
    result is `Decode`, and its effect on the caller's dict is `DocumentAfter`.
  - `Read` and `Write` work on a `FileSystem` object and on `Stream` objects.
  - The unit library, the class registry and the YAML emitter/loader are
    function-valued parameters.
- `multipole_layout.dfy`: C's `(int)` cast, the triangular walk, and the
  static `pars` layout.
- `multipole.dfy`: the two helpers (`mp_potential_helper`,
  `mp_gradient_helper`) and the static entry points.
  - Each helper is a method on arrays, proved against a recursive
    specification of the sum.
  - The floating-point basis functions are abstracted into a `Point` value.
- `multipole_etd.dfy`: `mpetd_polynomial`, the degree and coefficient
  layout, the `k_stride` walk, and the time-dependent entry points.

Two facts about `from_dict` that are easy to miss:

- It does not check that `units` is non-empty; an empty list decodes.
- Unknown classes, constructor failures and a parameter named `units`
  (which clashes with the `units=` keyword) surface as the raw Python
  exceptions. `Error` has one constructor per cause.

## Model

| member | source | states |
|---|---|---|
| Yaml.Find | gary/potential/io.py:42 | the position of the first entry with the key; None exactly when no entry has the key (`'parameters' in d` is false) |
| Yaml.Lookup | gary/potential/io.py:31 | `d[k]` is absent (KeyError) exactly when no entry has the key |
| Yaml.LookupAppendOther | gary/potential/io.py:42-45 | adding an entry under another key changes no lookup |
| Yaml.LookupAppendNew | gary/potential/io.py:42-45 | adding an entry under a new key makes its value the one found |
| Yaml.FindAfterValueUpdate | gary/potential/io.py:48-49 | assigning a new value to an existing key (`params[k] = ...`) moves no key |
| Coercion.StripLeft | gary/potential/io.py:49 | `float` strips leading whitespace: the result is a suffix of the input, everything removed is whitespace, and the result does not start with whitespace |
| Coercion.StripRight | gary/potential/io.py:49 | the result is a prefix of the input, everything removed is whitespace, and the result does not end with whitespace |
| Coercion.FirstOf | gary/potential/io.py:49 | finds the first decimal point or exponent marker, with none before it |
| Coercion.DecimalFraction | gary/potential/io.py:49 | the value of a decimal with a whole part and a fraction part is never negative |
| Coercion.ParseMantissa | gary/potential/io.py:49 | an accepted mantissa is non-negative, contains a digit, and starts with a digit or a point |
| Coercion.ParseExponent | gary/potential/io.py:49 | an accepted exponent is non-empty; it is negative only after a `-`, and a `-` never gives a positive exponent |
| Coercion.Scale | gary/potential/io.py:49 | scaling by a power of ten keeps a non-negative value non-negative |
| Coercion.ParseUnsigned | gary/potential/io.py:49 | an accepted unsigned number is non-negative and starts with a digit or a point |
| Coercion.ParseSigned | gary/potential/io.py:49 | a negative result comes only from text that starts with `-` |
| Coercion.ParseFloat | gary/potential/io.py:49 | `float(s)` is negative only when s contains a `-` |
| Coercion.ToFloat | gary/potential/io.py:49 | `float(v)` succeeds exactly for booleans, integers, floats and the strings `float` accepts; integers and floats keep their value |
| Coercion.Decimal | gary/potential/io.py:49 | the printed form of a natural number is a non-empty string of digits |
| Coercion.DecimalValue | gary/potential/io.py:49 | the printed digits of n denote n |
| Coercion.NoSpaceInDigits | gary/potential/io.py:49 | stripping leaves a digit string unchanged |
| Coercion.MantissaWhole | gary/potential/io.py:49 | a whole-number mantissa parses to its value |
| Coercion.MantissaPointZero | gary/potential/io.py:49 | `ddd.0` parses to the value of `ddd` |
| Coercion.UnsignedWithoutExponent | gary/potential/io.py:49 | text without an exponent marker is read as a bare mantissa |
| Coercion.ParseFloatInteger | gary/potential/io.py:47-49 | `float("5")`-style text coerces to the integer it spells |
| Coercion.ParseFloatPointZero | gary/potential/io.py:47-49 | `float("5.0")`-style text coerces to the number it spells |
| Coercion.FirstOfPrefix | gary/potential/io.py:49 | a marker found first in a prefix is the first in the whole text |
| Coercion.NothingToStrip | gary/potential/io.py:49 | text that neither starts nor ends with whitespace is left alone by stripping |
| Coercion.StripLeftSpacePrefix | gary/potential/io.py:49 | leading whitespace is removed entirely, whatever follows it |
| Coercion.StripRightSpaceSuffix | gary/potential/io.py:49 | trailing whitespace is removed entirely, whatever precedes it |
| Coercion.StripBothSpaceSuffix | gary/potential/io.py:49 | stripping both ends ignores trailing whitespace |
| Coercion.SurroundingSpaceIgnored | gary/potential/io.py:49 | `float` gives the same result with or without whitespace around the text, for every text |
| Coercion.NegativeSign | gary/potential/io.py:49 | for unsigned text without surrounding whitespace, `float("-" + s)` succeeds exactly when `float(s)` does, and is its negation |
| Coercion.SeparatorNotStripped | gary/potential/io.py:49 | text that starts with one of U+001C .. U+001F is rejected: `float` does not strip these separators |
| PotentialIO.UnitItems | gary/potential/io.py:37 | what `for unit in d['units']` iterates: the items of a list; otherwise only a str or a mapping is iterable |
| PotentialIO.ParseUnits | gary/potential/io.py:37 | on success, one unit per item, in order, each the parse of its item; on failure, the error names the first item the unit library rejects, and all earlier items parse |
| PotentialIO.ParametersOf | gary/potential/io.py:42-45 | a missing `parameters` key gives an empty mapping; a present mapping is used as is; anything else fails |
| PotentialIO.FirstBad | gary/potential/io.py:48-49 | the coercion loop stops at the first value `float` rejects: every earlier value coerces, and that one does not |
| PotentialIO.CoerceUpTo | gary/potential/io.py:48-49 | the loop keeps the mapping's size |
| PotentialIO.Construct | gary/potential/io.py:51-54 | a non-str name fails; an unknown name fails; with the class found, a keyword argument `units` fails before the class runs; otherwise the call succeeds exactly when the class returns an object, and the result is that object |
| PotentialIO.Document.CoerceParameters | gary/potential/io.py:47-49 | the loop stops exactly at the first value `float` rejects, with every earlier value coerced; when `params` is the caller's `parameters` entry, the caller's dict shows every overwrite, and otherwise it is unchanged |
| PotentialIO.FromDict | gary/potential/io.py:18-54 | the result is the decoding of the original document, with errors checked in source order: class, units, unit parsing, parameters, coercion, class lookup, a parameter named `units`, construction; the caller's document afterwards holds `parameters` coerced in place up to the first failure, and nothing else changes |
| PotentialIO.ToDict | gary/potential/io.py:56-74 | `class` is the class name; `units` holds the unit strings in order; `parameters` is present exactly when non-empty and then holds the parameters; there are no other keys |
| PotentialIO.MissingClassReported | gary/potential/io.py:30-34 | without `class`, decoding fails on `class` and leaves the document alone |
| PotentialIO.MissingUnitsReported | gary/potential/io.py:36-40 | with `class` but no `units`, decoding fails on `units` and leaves the document alone |
| PotentialIO.KwargsMeaning | gary/potential/io.py:54 | `**params` has exactly the mapping's keys, each bound to the value the key maps to |
| PotentialIO.CoercionMeaning | gary/potential/io.py:47-54 | after a loop without failure, every entry keeps its key and position and holds the float of its old value; the keyword arguments are exactly those keys and floats |
| PotentialIO.CoercedEntries | gary/potential/io.py:47-49 | after a loop without failure, every entry keeps its key and position and holds the float of its old value |
| PotentialIO.FindSameKeys | gary/potential/io.py:48-49 | mappings with the same keys in the same places find every key at the same position |
| PotentialIO.CoercionInPlace | gary/potential/io.py:47-49 | the caller's dict keeps its keys in place, and its `parameters` entry now maps the same keys, in the same order, to floats |
| PotentialIO.DocumentAfterCoerced | gary/potential/io.py:42-49 | when decoding reaches the loop and no value is rejected, the caller's dict afterwards differs from before only at the position of `parameters`, which holds the coerced mapping |
| PotentialIO.MissingParametersMeansNone | gary/potential/io.py:42-45 | without `parameters`, the class is called with no keyword arguments and the document is unchanged |
| PotentialIO.EmptyParametersLikeAbsent | gary/potential/io.py:42-45 | an empty `parameters` mapping decodes exactly like an absent one |
| PotentialIO.ParseUnitsOfShown | gary/potential/io.py:70 | unit strings written by `to_dict` parse back, in order, to the same units |
| PotentialIO.RoundTrip | gary/potential/io.py:18-74 | `from_dict(to_dict(p))` rebuilds p when units print and parse inversely and the class rebuilds p from its units and parameters, unless p has a parameter named `units`, which fails as a duplicate keyword |
| PotentialIO.Read | gary/potential/io.py:76-95 | a stream is loaded as it is; for a str, a file that opens and loads wins; any failure in that attempt falls back to loading the str itself as YAML text; a non-mapping document fails; a mapping goes through `from_dict` |
| PotentialIO.Write | gary/potential/io.py:97-116 | a stream gets the emitted `to_dict` document appended and stays open (a closed stream fails); a path gets its whole contents replaced (an unwritable path fails); nothing else changes |
| PotentialIO.ReadDispatch | gary/potential/io.py:89-93 | reading a str equals reading the file's text when that file opens and loads, and reading the str itself otherwise |
| PotentialIO.WriteThenRead | gary/potential/io.py:97-116 | writing to a path and reading that path back rebuilds the potential when the YAML loader inverts the emitter, with the same `units` exception as `RoundTrip` |
| MultipoleLayout.Trunc | gala/potential/potential/builtin/multipole.c:293-295 | `(int)` truncates toward zero: the result lies within 1 of the input, on the zero side |
| MultipoleLayout.TriClosedForm | gala/potential/potential/builtin/multipole.c:194-204 | after rows 0..n-1 the counter is n(n+1)/2 |
| MultipoleLayout.NumCoeffIsTri | gala/potential/potential/builtin/multipole.c:194-204 | the full walk up to lmax takes exactly num_coeff = (lmax+1)(lmax+2)/2 steps |
| MultipoleLayout.TriMonotone | gala/potential/potential/builtin/multipole.c:194-204 | the counter never decreases from row to row |
| MultipoleLayout.Pairs | gala/potential/potential/builtin/multipole.c:194-195 | the nested loops visit Tri(n) pairs |
| MultipoleLayout.PairsOrdered | gala/potential/potential/builtin/multipole.c:194-195 | every visited pair has m <= l < n, and pairs are visited in strictly increasing (l, m) order |
| MultipoleLayout.PairsIndex | gala/potential/potential/builtin/multipole.c:194-204 | pair (l, m) is visited when the counter is l(l+1)/2 + m, and that counter is within range |
| MultipoleLayout.FlatIndexClosedForm | gala/potential/potential/builtin/multipole.c:194-204 | the counter of pair (l, m) is l(l+1)/2 + m |
| MultipoleLayout.PairsExactlyOnce | gala/potential/potential/builtin/multipole.c:194-204 | every pair with m <= l < n is visited, at exactly one counter |
| MultipoleLayout.CoefficientAt | gala/potential/potential/builtin/multipole.c:303-306 | every slot after the header belongs to exactly one coefficient, either an S_lm or a T_lm |
| MultipoleLayout.CoefficientSlotsInverse | gala/potential/potential/builtin/multipole.c:303-306 | S_i sits at slot 6+2i and T_i at slot 7+2i, and these slots map back to (i, S) and (i, T) |
| MultipoleLayout.UnpackCoefficients | gala/potential/potential/builtin/multipole.c:303-306 | the copy loop fills fresh arrays with S_i = pars[6+2i] and T_i = pars[7+2i] for i < num_coeff |
| Multipole.SkippedTermsAddNothing | gala/potential/potential/builtin/multipole.c:196-203 | skipping pairs whose coefficients both vanish gives the same sum as adding every term |
| Multipole.ZeroCoefficientsZeroPotential | gala/potential/potential/builtin/multipole.c:168-209 | all-zero coefficients give potential 0 |
| Multipole.AllSkipped | gala/potential/potential/builtin/multipole.c:196-199 | a walk that skips every pair sums to 0 |
| Multipole.InnerOriginIsZero | gala/potential/potential/builtin/multipole.c:206 | an inner expansion evaluated at r = 0 gives 0, whatever its coefficients |
| Multipole.OnlyListedCoefficientsRead | gala/potential/potential/builtin/multipole.c:194-204 | the sum depends only on the first num_coeff coefficients |
| Multipole.ZeroCoefficientsZeroGradient | gala/potential/potential/builtin/multipole.c:211-279 | all-zero coefficients contribute a zero gradient |
| Multipole.GradAllSkipped | gala/potential/potential/builtin/multipole.c:249-252 | a gradient walk that skips every pair sums to the zero vector |
| Multipole.PotentialStep | gala/potential/potential/builtin/multipole.c:194-204 | the step at counter l(l+1)/2 + m adds the term of pair (l, m) |
| Multipole.GradientStep | gala/potential/potential/builtin/multipole.c:247-262 | the gradient step at counter l(l+1)/2 + m adds the gradient term of pair (l, m) |
| Multipole.AddRowTerms | gala/potential/potential/builtin/multipole.c:195-204 | row l adds the terms of pairs (l, 0) .. (l, l) to `val[k]`, skipping pairs whose coefficients both vanish; no other slot changes |
| Multipole.AddPotentialTerms | gala/potential/potential/builtin/multipole.c:193-204 | the nested walk adds the whole triangular sum to `val[k]` and changes no other slot |
| Multipole.GradientPair | gala/potential/potential/builtin/multipole.c:249-261 | one step of the gradient walk adds the spherical gradient term of pair (l, m), or nothing when both coefficients vanish |
| Multipole.GradientRow | gala/potential/potential/builtin/multipole.c:248-262 | row l adds the gradient terms of pairs (l, 0) .. (l, l) |
| Multipole.PotentialHelper | gala/potential/potential/builtin/multipole.c:168-209 | each of the K slots becomes the potential at its position: reset, summed, cut to 0 for an inner expansion at r = 0, and scaled by G M / r_s; slots past K are untouched |
| Multipole.GradientTerms | gala/potential/potential/builtin/multipole.c:240-262 | the spherical components summed over the triangular walk, skipping pairs with both coefficients zero |
| Multipole.AddGradientAt | gala/potential/potential/builtin/multipole.c:264-277 | one position's Cartesian gradient, scaled by G M / r_s^2, is added to its three slots; other slots are untouched |
| Multipole.GradientHelper | gala/potential/potential/builtin/multipole.c:211-279 | every position's scaled Cartesian gradient is ADDED to its own three slots of `grad`; slots past 3K are untouched |
| Multipole.StaticSlm | gala/potential/potential/builtin/multipole.c:303-306 | there are num_coeff sine coefficients, S_i = pars[6+2i] |
| Multipole.StaticTlm | gala/potential/potential/builtin/multipole.c:303-306 | there are num_coeff cosine coefficients, T_i = pars[7+2i] |
| Multipole.MpPotential | gala/potential/potential/builtin/multipole.c:281-314 | `mp_potential` returns the expansion built from the header fields and the interleaved coefficients of `pars` |
| Multipole.MpGradient | gala/potential/potential/builtin/multipole.c:316-345 | `mp_gradient` adds the expansion's gradient to `grad[0..2]` and changes no other slot |
| Multipole.MpDensity | gala/potential/potential/builtin/multipole.c:347-378 | `mp_density` returns 0 for every input |
| MultipoleEtd.PolyShift | gala/potential/potential/builtin/multipole.c:385-391 | the power sum equals c_0 + t times the power sum of the remaining coefficients |
| MultipoleEtd.PolyValueIsHorner | gala/potential/potential/builtin/multipole.c:385-391 | the loop's power sum agrees with Horner's rule for every t and every list of coefficients |
| MultipoleEtd.PolyAtZero | gala/potential/potential/builtin/multipole.c:385-391 | at t = 0 the polynomial is its constant coefficient |
| MultipoleEtd.PolyConstant | gala/potential/potential/builtin/multipole.c:385-391 | a polynomial with one coefficient does not depend on t |
| MultipoleEtd.Polynomial | gala/potential/potential/builtin/multipole.c:385-391 | `mpetd_polynomial` returns the sum of c[k] t^k for k < deg, reading only c[0..deg); a degree of 0 or less gives 0 |
| MultipoleEtd.StrideMonotone | gala/potential/potential/builtin/multipole.c:428-439 | with non-negative degrees, `k_stride` never moves backwards |
| MultipoleEtd.BlockInBounds | gala/potential/potential/builtin/multipole.c:428-439 | pair i's coefficient block starts after r_s and ends inside `pars`; its alm part comes before its blm part |
| MultipoleEtd.BlocksDisjoint | gala/potential/potential/builtin/multipole.c:428-439 | blocks follow the walk order and never overlap |
| MultipoleEtd.Alm | gala/potential/potential/builtin/multipole.c:434 | num_coeff values; alm[i] is the polynomial in t over the first deg_a[i] coefficients of block i |
| MultipoleEtd.Blm | gala/potential/potential/builtin/multipole.c:435 | num_coeff values; blm[i] is the polynomial in t over the next deg_b[i] coefficients of block i |
| MultipoleEtd.UnpackDegrees | gala/potential/potential/builtin/multipole.c:411-414 | deg_a[i] = (int)pars[3+i] and deg_b[i] = (int)pars[3+num_coeff+i] |
| MultipoleEtd.PairBlocks | gala/potential/potential/builtin/multipole.c:434-436 | pair i reads deg_a[i] coefficients at `k_stride` for alm[i] and the next deg_b[i] for blm[i], and the next pair's `k_stride` is right after both, inside `pars` |
| MultipoleEtd.PairValues | gala/potential/potential/builtin/multipole.c:434-435 | the two `mpetd_polynomial` calls evaluate the block at `k_stride` and the block right after it |
| MultipoleEtd.FillPair | gala/potential/potential/builtin/multipole.c:434-437 | one step sets alm[i] and blm[i] from the block at `k_stride` and moves `k_stride` to the next block; no other entry changes |
| MultipoleEtd.FillRow | gala/potential/potential/builtin/multipole.c:430-438 | row l fills the pairs at counters l(l+1)/2 .. (l+1)(l+2)/2 - 1 and leaves the others alone |
| MultipoleEtd.FillRows | gala/potential/potential/builtin/multipole.c:428-439 | starting from `k_stride` = 2 num_coeff + 5, the rows 0 .. lmax fill every alm[i] and blm[i] with its polynomial at t |
| MultipoleEtd.TimeCoefficients | gala/potential/potential/builtin/multipole.c:427-439 | the nested loop fills alm and blm with the polynomials of every block, evaluated at t |
| MultipoleEtd.UnpackTimeDependent | gala/potential/potential/builtin/multipole.c:405-439 | G, lmax, M = pars[2nc+3] and r_s = pars[2nc+4] from the header, and alm, blm equal to the coefficient polynomials at t |
| MultipoleEtd.MpetdPotential | gala/potential/potential/builtin/multipole.c:393-450 | `mpetd_potential` returns the inner expansion with coefficients alm(t), blm(t), mass pars[2nc+3] and scale pars[2nc+4] |
| MultipoleEtd.MpetdGradient | gala/potential/potential/builtin/multipole.c:452-500 | `mpetd_gradient` adds that expansion's gradient to `grad[0..2]` and changes no other slot |
| MultipoleEtd.MpetdDensity | gala/potential/potential/builtin/multipole.c:502-569 | `mpetd_density` returns 0 and reads nothing from `pars` |
| MultipoleEtd.ZeroDegreesZeroPotential | gala/potential/potential/builtin/multipole.c:428-439 | with every degree 0, every alm and blm is 0 and the potential is 0 |
| MultipoleEtd.DegreeOneTimeIndependent | gala/potential/potential/builtin/multipole.c:428-439 | with every degree 1, the coefficients, and so the expansion, are the same at every time |
| MultipoleEtd.AlmAtTimeZero | gala/potential/potential/builtin/multipole.c:434 | at t = 0, alm[i] is the first coefficient of block i |

## Left out

- The YAML parser and emitter are parameters (`load`, `dump`). Only a document that is a mapping with string keys is modelled; a non-string YAML key is not.
- The unit library (`u.Unit`, `str(unit)`) is a pair of parameters, and the potential classes are a registry of constructor functions. What a class does with its arguments is not modelled.
- `os.path.abspath` normalisation is not modelled. A path is looked up in the file system as given.
- Closing files, and the Python exception *types* and messages, are not modelled. `Error` names each cause once.
- An unopenable or unloadable path in `read` falls back to loading the text itself, as the code does. Which particular failure happened is not distinguished.
- PotentialIO.Read: loading from a stream consumes it, leaving it read to the end. A stream is modelled as its content, a value, so that effect on the caller's stream is not modelled.
- PotentialIO.Write: an object that is neither a path nor has `write` is not modelled. The possibility that emitting fails midway, or writes part of the text, is not modelled either.
- PotentialIO.ToDict: the returned dict shares the potential's parameter mapping, as `d['parameters'] = potential.parameters` does. That aliasing is not modelled, because the model's mappings are values.
- Coercion.ToFloat: `float` of `inf`, `nan`, `infinity`, digit separators (`1_000`) and non-ASCII digits are not modelled; such text is treated as rejected. Non-ASCII whitespace is stripped as `float` strips it. Integers too large for a double, and rounding to double precision, are not modelled either.
- Doubles are modelled as exact reals: no rounding, overflow, infinities or NaN. Division by r_s is undefined on reals, so the multipole members require r_s != 0 where the C code would produce inf or NaN. C `int` overflow is not modelled.
- The floating-point basis is abstracted into a `Point` value that carries the numbers the C code would compute for one position. This covers `mp_phi_lm`, `mp_sph_grad_phi_lm`, the Legendre functions, `sqrt`, `atan2`, `sin` and `cos`, and the division by s sin(theta). `mp_rho_lm` and `mp_density_helper` are not part of this model: the helper is never called, because both density entry points return 0.
- MultipoleLayout.StaticLayout: the static entry points require the layout the caller is meant to provide: lmax >= 0, num_coeff = (lmax+1)(lmax+2)/2 and all coefficients present. The C code checks none of this and reads out of bounds otherwise.
- MultipoleEtd.MpetdPotential: requires every degree to be non-negative and all coefficient blocks to be present. The C code accepts a negative degree, which moves `k_stride` backwards; that case is not modelled.
- MultipoleEtd.MpetdGradient: the same layout requirement as `MpetdPotential`.
- MultipoleEtd.TimeCoefficients: the same layout requirement as `MpetdPotential`.
- MultipoleEtd.UnpackTimeDependent: the same layout requirement as `MpetdPotential`.
- MultipoleEtd.FillRows: the same layout requirement as `MpetdPotential`.
- MultipoleEtd.FillRow: the same layout requirement as `MpetdPotential`.
- MultipoleEtd.FillPair: the same layout requirement as `MpetdPotential`.
- MultipoleEtd.PairBlocks: the same layout requirement as `MpetdPotential`.
- The `n_dim` argument and the position array `q` are replaced by one `Point`. The K-position helpers are modelled with K = |pts|.
