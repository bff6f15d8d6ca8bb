# cookiebox_simulation: the discrete core, in Dafny

This project models the discrete logic of the cookiebox simulation scripts. It
does not model the floating-point FFT work they wrap. That logic is:

- **Impulse-response handling in the deconvolution batch driver** (`src/analyticwaveform.py`):
  - aligning an impulse response by rolling its first minimum to the front;
  - zero-padding the averaged response to the waveform length;
  - filling the three output matrices row by row;
  - mapping a raw waveform file name such as `.../raw/CookieBox_waveforms.5pulses.image12.dat`
    to its pulse count, its image index and its three output paths.
- **The time-energy simulation** (`src/generate_sinogram_timeenergy.py`):
  - the `electron`, `Photo` and `Auger` records, whose setters update fields in place and return the object;
  - the clamped bin index `e2ind` and its twin `phi2ind`;
  - the sparse `(row, column, value)` listing `coordout`;
  - the single-cell increments of the time-energy histograms.
- **Dataset assembly for the time-of-flight regression** (`src/load_ave.py`):
  - `katiesplit`, which cuts a shuffled row order into train, test, validate and out-of-bag groups;
  - inside `loaddata`: the energy × angle grid flattening, the row-validity mask, the
    per-setting feature and truth rows, and the stacking of those rows across settings and files.

Layout, one module per file:

| file | module | models |
|---|---|---|
| `wrappers.dfy` | `Wrappers` | `Option`, which stands for a Python exception where the source can raise |
| `arith.dfy` | `Arith` | integer division and multiplication facts shared by the proofs |
| `alignment.dfy` | `Alignment` | `np.argmin`, `np.roll` and the alignment of an impulse response |
| `batch.dfy` | `Batch` | zero padding (an array method) and the row-wise batch loop over `array2` matrices |
| `batch_names.dfy` | `BatchNames` | the file-name pattern under `re.match`, `int()` of the digit groups, and the output names |
| `binning.dfy` | `Binning` | `e2ind`/`phi2ind`, `coordout`, and the in-place histogram deposits |
| `particles.dfy` | `Particles` | the `electron` class and its `Photo`/`Auger` kinds as one Dafny class |
| `dataset.dfy` | `Dataset` | `katiesplit`, grid flattening, the mask, per-setting rows and the `loaddata` loops |

Conventions used throughout:

- Floating-point values are exact `real`s.
- Python's `int()` on a float truncates toward zero, and that is written out (`Binning.Trunc`).
- A random outcome is an input: the shuffle of `katiesplit`, the pulse energies, phases and scales.
- `np.log` is an input too: `loaddata`'s logarithm is a function parameter `ln`.
- The transforms applied to each waveform row are function parameters.
- Python raises in several places: an empty response in `argmin`, a pad target that is too short,
  a zero-width bin range, a `Photo` without a binding, an index past the end of an array, and
  arrays of unequal length, a transform row of the wrong length, and `setbinding` on an electron
  that is not a `Photo`. Each of these is modelled as `None` or `false`, never as a precondition.
  The preconditions that remain state what the calling code guarantees by construction: the
  shuffle `katiesplit` builds is a permutation of `0..sz-1`; the simulation's pulse lists all have
  `npulses` entries; and its two time-energy histograms are distinct arrays of one shape.

Behaviour of the code worth knowing:

- **`katiesplit` cut points.** The group boundaries are `sz//4`, `2*sz//4` and `3*sz//4`. Python
  reads these as `(k*sz)//4`, not `k*(sz//4)`. So the remainder rows are spread over test,
  validate and out-of-bag: every group has `sz//4` or `sz//4 + 1` rows. For `sz = 6` the sizes
  are 1, 2, 1, 2. All four groups have exactly `sz//4` rows only when `sz` is a multiple of 4.
  The model follows the code (`Dataset.Quarter`, `Dataset.QuarterSizes`).
- **`e2ind` truncates.** It truncates the scaled position toward zero. The model proves that this
  is the floor of the scaled value clamped to `0 .. n-1` (`Binning.BinIsClampedFloor`): every
  value below 1 lands in bin 0 either way.
- **`re.match` and the file-name pattern.** The match is anchored at the start only: the whole
  match (group 0) is a prefix of the name, and trailing text is ignored. `(.+)` is greedy. `.`
  matches any character but a newline, so the two separators before `pulses` and `image` and the
  one before `dat` may be any such character.

## Model

| member | source | states |
|---|---|---|
| Alignment.ArgMin | src/analyticwaveform.py:14 | the index of the first smallest sample: no sample is smaller, and every earlier sample is strictly larger |
| Alignment.Roll | src/analyticwaveform.py:15 | `np.roll` returns an array of the same length (RollAt gives each element) |
| Alignment.RollAt | src/analyticwaveform.py:15 | `np.roll` keeps the length, and element k of the result is `s[(k - shift) mod n]` |
| Alignment.RollInverse | src/analyticwaveform.py:15 | rolling back by the same shift restores the array |
| Alignment.RollPermutes | src/analyticwaveform.py:15 | a roll keeps the multiset of samples |
| Alignment.Align | src/analyticwaveform.py:13-15 | alignment fails (numpy raises in argmin) exactly when the response is empty, and otherwise keeps its length |
| Alignment.AlignRotation | src/analyticwaveform.py:13-15 | the aligned response is `ir[i..] + ir[..i]` for `i` the argmin index: a left rotation |
| Alignment.AlignRotates | src/analyticwaveform.py:33-35 | the aligned response has the raw length, and `aligned[k] == ir[(k + i) mod n]` |
| Alignment.AlignMinFirst | src/analyticwaveform.py:51-53 | after alignment, sample 0 is a minimum of the whole response |
| Alignment.AlignPermutes | src/analyticwaveform.py:62-64 | alignment is a permutation: the same multiset of samples |
| Alignment.AlignIdempotent | src/analyticwaveform.py:14-15 | aligning an aligned response returns it unchanged, because argmin returns the first minimum |
| Alignment.AlignUndone | src/analyticwaveform.py:13-15 | rolling the aligned copy right by the argmin gives back the caller's response, so nothing is lost or changed |
| Batch.Padded | src/analyticwaveform.py:126-127 | padding fails exactly when the response is longer than the target; otherwise the result has the target length, starts with the response and is zero after it |
| Batch.ZeroPad | src/analyticwaveform.py:126-127 | allocates a fresh array whose contents are exactly the padded response; fails exactly when the response is too long |
| Batch.Row | src/analyticwaveform.py:144-145 | `m[c, :]` has one entry per column, and entry j is `m[c, j]` |
| Batch.SetRow | src/analyticwaveform.py:144-145 | `m[c, :] = r` replaces row c by r and leaves every other cell unchanged; it fails, changing nothing, exactly when c is past the last row or r has another length |
| Batch.DeconvolveRows | src/analyticwaveform.py:139-145 | the three fresh outputs have the input's shape; the loop fails exactly when some transform returns a row of another length, and otherwise row c of each output is the transform of input row c alone |
| BatchNames.DecimalValue | src/analyticwaveform.py:134-135 | `int()` of a digit string is below 10 to the number of digits |
| BatchNames.LeadingZero | src/analyticwaveform.py:134-135 | a leading zero does not change the value `int()` reads |
| BatchNames.Decimal | src/analyticwaveform.py:134-135 | the decimal numeral of n is a non-empty string of digits |
| BatchNames.DecimalRoundTrip | src/analyticwaveform.py:134-135 | `int()` of the decimal numeral of n is n |
| BatchNames.DigitRun | src/analyticwaveform.py:131 | a greedy `\d` run from index i: it stays in the string, covers only digits, and stops at the end or at a non-digit |
| BatchNames.MatchName | src/analyticwaveform.py:131-132 | `re.match` fails only when no newline-free prefix of the name is followed by a match of the rest; on success group 1 is such a prefix |
| BatchNames.MatchLongest | src/analyticwaveform.py:131 | the greedy `(.+)` takes the longest such prefix: no longer newline-free prefix is followed by a match |
| BatchNames.TailMatchSound | src/analyticwaveform.py:131 | when the pattern after `(.+)` matches, the text has the literal layout `raw/CookieBox_waveforms`, digits, `pulses`, `image`, digits, `dat` |
| BatchNames.MatchGroups | src/analyticwaveform.py:131 | a match covers a start of the name; group 1 is non-empty and newline-free; groups 3 and 4 are non-empty digit strings |
| BatchNames.MatchShape | src/analyticwaveform.py:131-136 | group 0 is prefix + `raw/` + stem + one character + `dat`, and the stem (group 2) is `CookieBox_waveforms`, pulses digits, `pulses`, `image`, image digits |
| BatchNames.PlanJob | src/analyticwaveform.py:130-151 | a name gives a job exactly when it matches the pattern; other names are skipped |
| BatchNames.OutputsDistinct | src/analyticwaveform.py:146-151 | the three output paths are pairwise different, and none is the waveform file they are computed from |
| BatchNames.MatchOfTail | src/analyticwaveform.py:131 | a name made of a newline-free prefix and the conventional tail is matched with exactly that prefix, stem and digit groups |
| BatchNames.CanonicalRoundTrip | src/analyticwaveform.py:131-151 | for the conventional name of n pulses and image i, the job reads that file, has pulse count n and image i, and writes `prefix + "processed/" + stem` with the three suffixes |
| Binning.Trunc | src/generate_sinogram_timeenergy.py:53 | Python `int()` of a float: truncation toward zero, bounded on both sides |
| Binning.Bin | src/generate_sinogram_timeenergy.py:52-66 | `e2ind` (and `phi2ind`, with the same body): fails exactly on a zero-width range (ZeroDivisionError), otherwise lies in `[0, n-1]` |
| Binning.BinIsClampedFloor | src/generate_sinogram_timeenergy.py:53-58 | the bin is the floor of `(e - lo) * n / (hi - lo)` clamped to `0 .. n-1` |
| Binning.BinMonotone | src/generate_sinogram_timeenergy.py:52-58 | on an increasing range a larger value never gets a smaller bin |
| Binning.BinOfSlice | src/generate_sinogram_timeenergy.py:52-58 | every value in the k-th of n equal slices of the range lands in bin k |
| Binning.RowCoords | src/generate_sinogram_timeenergy.py:68-70 | the nonzero cells of one row from a column on, each as a triple holding its value, all of them, in column order |
| Binning.CoordsFrom | src/generate_sinogram_timeenergy.py:68-70 | the nonzero cells of the rows from i down, sound, complete and in row-major order |
| Binning.Coords | src/generate_sinogram_timeenergy.py:68-70 | `coordout`: exactly the nonzero cells as (row, column, value) triples with `m[row, column] == value`, each once, in row-major order |
| Binning.Cell | src/generate_sinogram_timeenergy.py:152 | the histogram cell of a photoelectron exists exactly when both ranges have nonzero width and both axes are non-empty, and it is in bounds |
| Binning.Deposit | src/generate_sinogram_timeenergy.py:152 | `timeenergy[e2ind, phi2ind] += scale`: exactly one cell grows by the amount, and nothing changes where Python raises |
| Binning.DepositPulses | src/generate_sinogram_timeenergy.py:144-154 | after the pulse loop, each cell of each histogram grew by the summed scales of the pulses that landed in it; if Python raises, both histograms are unchanged |
| Binning.Landed | src/generate_sinogram_timeenergy.py:144-154 | what the first k pulses put into one cell; with no negative scale it lies between 0 and the sum of the k scales |
| Binning.LandedElsewhere | src/generate_sinogram_timeenergy.py:152-154 | a cell that no pulse maps to receives nothing |
| Binning.LandedTogether | src/generate_sinogram_timeenergy.py:152-154 | when all pulses map to one cell, that cell receives the sum of all scales |
| Particles.Electron.constructor | src/generate_sinogram_timeenergy.py:8-12 | a fresh electron is named `unnamed`, with center 512, width 1.25, delay 0.25 and no binding |
| Particles.Electron.SetName | src/generate_sinogram_timeenergy.py:17-19 | sets the name only and returns the same object |
| Particles.Electron.SetCenter | src/generate_sinogram_timeenergy.py:20-22 | sets the center only and returns the same object |
| Particles.Electron.SetWidth | src/generate_sinogram_timeenergy.py:23-25 | sets the width only and returns the same object |
| Particles.Electron.SetDelay | src/generate_sinogram_timeenergy.py:26-28 | sets the delay only and returns the same object |
| Particles.Electron.SetBinding | src/generate_sinogram_timeenergy.py:43-45 | on a Photo, records the binding energy, changes nothing else and returns the same object; on a plain or Auger electron it fails (AttributeError) and changes nothing |
| Particles.Electron.SetCenterWidthDelay | src/generate_sinogram_timeenergy.py:29-42 | a plain or Auger electron stores (x, y, z). A Photo stores (x - binding, y, z). A Photo without a binding fails and changes nothing. The name and binding are kept |
| Particles.NewPhoto | src/generate_sinogram_timeenergy.py:138-142 | `Photo().setbinding(b).setcenterwidthdelay(c, w, d)` reads back as (c - b, w, d) |
| Particles.NewAuger | src/generate_sinogram_timeenergy.py:97-113 | an Auger electron set to (c, w, d) reads back as (c, w, d) |
| Dataset.Quarter | src/load_ave.py:40-43 | the four index groups, in order, concatenate back to the shuffled order |
| Dataset.QuarterSizes | src/load_ave.py:40-43 | the cuts fall at exactly `sz//4`, `(2*sz)//4` and `(3*sz)//4`; so every group has `sz//4` or `sz//4 + 1` indices, and all have `sz//4` when 4 divides `sz` |
| Dataset.QuarterPartition | src/load_ave.py:38-43 | for a shuffle of `0..sz-1` the groups are pairwise disjoint, none repeats an index, and together they cover every row |
| Dataset.Take | src/load_ave.py:44-51 | `m[idx, :]`: row k of the result is row `idx[k]` of m |
| Dataset.KatieSplit | src/load_ave.py:36-52 | fails exactly when y has fewer rows than x; otherwise every x part and its y part are cut with the same index group |
| Dataset.AngleGrid | src/load_ave.py:68 | the tiled angle list has `len(elist) * len(alist)` entries |
| Dataset.EnergyGrid | src/load_ave.py:69 | the repeated energy list has `len(elist) * len(alist)` entries |
| Dataset.GridCell | src/load_ave.py:68-69 | flat position `i * na + j` holds energy i and angle j: each pair once, energy-major |
| Dataset.GridIndex | src/load_ave.py:68-69 | flat position k holds angle `alist[k mod na]` and energy `elist[k div na]` |
| Dataset.Keep | src/load_ave.py:76 | the mask keeps position k exactly when `183 < xsplat[k] < 187`, `emat[k] > 0` and `-0.050 < ydata[k] < 0.050` |
| Dataset.KeptFrom | src/load_ave.py:76 | the kept indices from k on are exactly those passing the test, ascending |
| Dataset.ValidIndices | src/load_ave.py:76 | `np.where` of the mask: fails exactly on unequal lengths; index m is kept iff `abs(xsplat[m]-185) < 2`, `emat[m] > 0` and `abs(ydata[m]) < 0.050`; ascending |
| Dataset.SettingRows | src/load_ave.py:76-86 | one setting's rows exist exactly when the mask succeeds and every kept index fits t_offset; one 3-column feature row and one 2-column truth row per kept index |
| Dataset.SettingRowsGrid | src/load_ave.py:79-86 | feature row i is `[ln(-vset), ln(energy), angle]` and truth row i is `[ln(t_offset), y * 1000]` at the i-th kept grid position, with the angle unchanged |
| Dataset.Join | src/load_ave.py:87-92 | `row_stack` of two blocks fails exactly when either fails; otherwise the features (and truths) are the first block's rows followed by the second's |
| Dataset.Gather | src/load_ave.py:64-92 | stacking a list of settings succeeds exactly when every setting's rows succeed |
| Dataset.GatherCount | src/load_ave.py:87-92 | the stacked features and truths are row-aligned, with one row per kept position of every setting |
| Dataset.GatherAppend | src/load_ave.py:87-92 | stacking settings ss then ts gives the stack of ss with the stack of ts below it, and fails when either fails |
| Dataset.GatherStaysNone | src/load_ave.py:87-92 | once a setting raises, no later setting can undo it |
| Dataset.JoinFirst | src/load_ave.py:87-92 | copying the first block onto an empty `x_all` gives the same stack as `row_stack` would |
| Dataset.LoadStops | src/load_ave.py:55-92 | once the settings of the first files raise, loading all the files raises too |
| Dataset.StackFile | src/load_ave.py:64-92 | the inner loop over one file's settings extends the stack by exactly that file's settings, or fails as the whole stack does |
| Dataset.LoadData | src/load_ave.py:55-92 | the result is the stack of every setting of every file in visiting order, and two empty lists when there is no file |

## Left out

- FFT numerics: the arithmetic of `althomomorphic`, `homomorphic`, `altconv`, `derivconv` and
  `deconv` is out of scope. That means the FFTs, `gauss`, `sigmoid`, logarithms and complex phase.
  These are floating-point numerics on numpy and on `utilities`/`deconvolve_test`, and those
  modules are not part of this model. The batch loop takes the per-row transforms as parameters.
- The empirical scale constants (`1.5e-37`, `2.1e-37`, `6e-20`, `1e-36`) belong to those transforms
  and are not modelled.
- The forward FFT `WAVEFORMS` in the batch loop is computed and never used, so it is not modelled.
- File I/O is not modelled: `np.loadtxt`, `np.savetxt`, `h5py`, the 300-file averaging loop and
  `sys.argv`. `loaddata` takes the files as a list of settings per file, and the batch driver
  takes the file names as strings.
- Randomness is an input: the shuffle in `katiesplit`, and `np.random` for the pulse count,
  energies, widths, phases and scales.
- The angular histogram loop with its Legendre distribution and `np.histogram` of random energies
  is not modelled. It is sampling, not logic.
- The machine-learning part of `load_ave.py` is not modelled: fitting, prediction, mutual
  information and persistence.
- Broken or dead code is not modelled: `ydetToLorenzo` uses an undefined name, `Auger.this` is
  never called, and the commented-out blocks do nothing.
- `electron.print` is console output and is not modelled.
- The binding energies (543.1, 41.6, 409.9, 37.3, 284.2) and the Auger line tables are data.
  `Particles.NewPhoto` and `Particles.NewAuger` cover how each entry is built.
- Particles.Electron.Call: the `__call__` reader has no contract of its own. The setters'
  contracts are stated through it.
- BatchNames.MatchName: digits are ASCII `0`-`9` only. Python's `\d` and `int()` also accept other
  Unicode decimal digits.
- Floating point is modelled by exact reals. So there is no NaN or infinity (`np.log` of a
  non-positive value, comparisons with NaN in the mask) and no rounding in `e2ind`'s scaled value.
- Numpy broadcasting of length-1 arrays is not modelled. Unequal lengths are always an error in the model.
- Batch.SetRow: numpy also accepts a length-1 row for `m[c, :] = r` and repeats it. The model treats
  that as a length mismatch; every transform in the batch loop returns a full-length row anyway.
- Dataset.LoadData: `vset`, the last voltage of the setting's first key, is an input field. h5py's
  key order is the order of the given list.
- Binning.DepositPulses: only the pulse loop's two time-energy increments are modelled. Building
  the photoelectrons from the random pulse parameters is covered by `Particles.NewPhoto`.
