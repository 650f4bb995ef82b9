# Telemetry acquisition core of the GNOME NVIDIA extension, in Dafny

This project models how the applet reads GPU telemetry:

- **Processor** (`src/processor/mod.rs`). A processor is configured with a base command, a start fragment, an optional middle fragment and an end fragment. `process` does four things:
  - It assembles one command line from those fragments, a device uuid and a metric key. There are two layouts: `nvidia-settings` and everything else.
  - It splits the line at every single ASCII space into an argument vector.
  - It runs only vectors of 2 to 6 arguments. Any other arity gives `Ok(None)`.
  - It classifies what the process primitive reports. No stdout gives `Ok(None)`. Stdout is parsed into lines with `str::lines`. A launch failure is passed on as an error.
- **Property catalogs** (`create_provider` in `src/mainwindow/imp.rs`). Each provider type gets a fixed list of (processor, formatter, metric key). The types are:
  - 0: nvidia-smi, with Fahrenheit conversion.
  - 1: nvidia-settings.
  - 2: nvidia-smi.
  - 3: optirun.
  - Any other id: a fallback nvidia-smi list tagged 0.
- **Formatters.** The closures that turn parsed lines into display strings: identity, percent, MiB, floored watts, unit-aware temperature, and the nvidia-settings "key=value, key=value" utilization fields.
- **`refresh_cards`.** A pure transition of the window state, which holds:
  - the provider;
  - the page stack;
  - the `gpu_pages` list;
  - the `gpu_names` list.

  A refresh does three things:
  - It reuses the provider when its type matches the setting, and rebuilds it otherwise.
  - It removes the stack pages named in `gpu_names`.
  - It appends one page per enumerated GPU. The page is titled with the GPU's name, or with its uuid when the name cannot be read.

Modules:

- `Common`: Option and Result.
- `Text`: character split and join, and the ", " split.
- `Numerals`: integer display, and decimal parsing and flooring.
- `Processing`: the processor.
- `Formatting`: the closures.
- `Catalog`: `create_provider`.
- `Commands`: the argument vectors each catalog produces.
- `Reconciler`: `refresh_cards`.

The code is followed where it departs from the documented intent:

- **Fahrenheit is discarded outside catalog 0.** Catalogs 1, 2, 3 and the fallback compute the Fahrenheit text and then return the unconverted reading. Only catalog 0 returns `°F`.
- **The fallback catalog has no `utilization.memory`.**
- **`gpu_names` is never written.** So a refresh never removes a page, and every refresh pushes a fresh copy of every GPU's page onto `gpu_pages` and hands that copy to the page stack with `add_titled`. `gpu_pages` only grows, and lists each GPU once per refresh.
- **A command whose arity has no branch is not an error.** It gives `Ok(None)` without running anything. A uuid with two or more spaces silently disables an nvidia-smi query.
- **`str::lines` follows current Rust.** Only a line ended by `"\n"` loses one trailing `'\r'`.

## Model

| member | source | states |
|---|---|---|
| Processing.AssembleCommand | src/processor/mod.rs:126-150 | The command is the base, one space, then the fragments in layout order. Its length is the sum of the parts. With a non-settings base it ends with the uuid. With the settings base it ends with the end fragment. |
| Processing.Tokenise | src/processor/mod.rs:155-187 | The argument vector is empty exactly when the command is. Otherwise there is one more argument than there are spaces. No argument contains a space, and joining the arguments with spaces gives back the command. |
| Processing.TokeniseCommand | src/processor/mod.rs:155-187 | The byte scan, with its running `start` index and its final-character flush, computes exactly the space-separated pieces. |
| Processing.Argv | src/processor/mod.rs:189-201 | A vector is handed to the process primitive exactly when it has 2 to 6 arguments. |
| Processing.Classify | src/processor/mod.rs:203-229 | No stdout gives `Ok(None)` whatever stderr holds. Stdout is parsed into lines whatever stderr holds. Only a launch failure is an error. |
| Processing.Process | src/processor/mod.rs:118-389 | Bad arity gives `Ok(None)`; otherwise the result is the classification of the run. An error always comes from a launch failure of a runnable vector. |
| Processing.BadArityIgnoresExecutor | src/processor/mod.rs:382-386 | A command outside the 2..6 gate gives `Ok(None)` whatever the process primitive would do. |
| Processing.StderrOnlyIsNotAnError | src/processor/mod.rs:208-213 | Output on stderr alone is swallowed: the result is `Ok(None)`, not an error. |
| Processing.Lines | src/processor/mod.rs:408-420 | No parsed line contains '\n', and the result is empty exactly when the output is. |
| Processing.LinesArePieces | src/processor/mod.rs:408-420 | For any output, carriage returns included, there is one line per '\n'-separated piece, without the empty piece a final line ending leaves. A line ended by '\n' loses one trailing '\r'; an unterminated last line is kept as it is. |
| Processing.LinesAreSplit | src/processor/mod.rs:408-420 | For CR-free output, the lines are the '\n'-separated pieces, without the empty piece a final line ending leaves. |
| Processing.LinesJoin | src/processor/mod.rs:408-420 | Joining the lines with '\n', plus the final '\n' if there was one, gives back CR-free output. |
| Processing.LinesOfJoin | src/processor/mod.rs:408-420 | Lines written one per line parse back to themselves. |
| Text.SplitJoin | src/processor/mod.rs:155-187 | Splitting a space-joined list of space-free pieces gives the pieces back. |
| Text.SplitAppend | src/processor/mod.rs:155-187 | Splitting `x + sep + y` is splitting `x` followed by splitting `y`. |
| Text.FirstPiece | src/mainwindow/imp.rs:504-507 | The first piece of a split is the longest separator-free prefix, followed by the separator or the end. |
| Text.SecondPiece | src/mainwindow/imp.rs:504-507 | A split with two or more pieces means the separator occurs, and the second piece is the first piece of what follows its first occurrence. |
| Text.SplitCommaSpaceAppend | src/mainwindow/imp.rs:503 | `split(", ")` splits off a comma-free first field intact. |
| Numerals.ParseDecimal | src/mainwindow/imp.rs:460 | A numeral without '.' is accepted exactly when it is a non-empty digit string, and reads as that integer. A numeral `w.f` is accepted exactly when `w` and `f` are digit strings with at least one digit in all, and reads as `w * 10^|f| + f` scaled by `10^-|f|`. An accepted reading floors to the value of its integer digits. |
| Numerals.ParseFraction | src/mainwindow/imp.rs:460 | The digits either side of the '.' are accepted exactly when both are digit strings and not both empty. The reading is `w * 10^|f| + f` at scale `|f|`, and it floors to `w`. |
| Numerals.ParseDecimalOfNat | src/mainwindow/imp.rs:460-466 | A displayed integer parses back as that integer. |
| Numerals.ParseNatToString | src/mainwindow/imp.rs:466 | An integer's display (digits, no leading zero) reads back as the integer. |
| Numerals.Floor | src/mainwindow/imp.rs:463 | The floor `r` of a reading `x` satisfies `r <= x < r + 1`. |
| Numerals.FahrenheitFloor | src/mainwindow/imp.rs:338-345 | The floor `r` of `t * 9 / 5 + 32` is at least 32 and satisfies `r <= 9t/5 + 32 < r + 1`. |
| Formatting.UnitOf | src/mainwindow/imp.rs:302-323 | Fahrenheit is chosen exactly when there are parameters holding ("tempformat", "F") and not ("tempformat", "C"). |
| Formatting.Any | src/mainwindow/imp.rs:304-316 | `iter().any(...)` is membership of the pair. |
| Formatting.FormatPower | src/mainwindow/imp.rs:455-485 | The text exists exactly when the reading parses. It ends in " W". The number before it is written without leading zeros and reads back as the floor of the reading. |
| Formatting.FormatFahrenheit | src/mainwindow/imp.rs:335-364 | The text exists exactly when the reading parses. It ends in "°F". The number before it is written without leading zeros and reads back as the floor of the converted reading. |
| Formatting.FormatTemperature | src/mainwindow/imp.rs:296-367 | Celsius appends "°C" with no numeric check. Fahrenheit without conversion returns the reading unchanged. Fahrenheit with conversion is the floored conversion. The only `None` is a converting Fahrenheit formatter on an unparseable reading. |
| Formatting.FormatUtilizationField | src/mainwindow/imp.rs:500-514 | The shown text is field `i` of the ", "-split line from just after its first '=' up to the next '=' or the field's end, followed by " %". |
| Formatting.Apply | src/mainwindow/imp.rs:251-487 | Per formatter: identity, " %" and " MiB" suffixes. A `None` result comes only from the power and the converting temperature formatters, exactly when the reading does not parse (and, for temperature, the unit is Fahrenheit). |
| Formatting.UtilizationFields | src/mainwindow/imp.rs:500-635 | On "k0=v0, k1=v1", alone or followed by further ", "-separated fields (as the four-field nvidia-settings report is), the two utilization formatters accept the line and show "v0 %" and "v1 %". |
| Formatting.KeyValue | src/mainwindow/imp.rs:504 | "k=v" splits on '=' into k and v. |
| Formatting.WorkedTemperature | src/mainwindow/imp.rs:335-364 | A reading of 70 under "F" shows "158°F" in catalog 0 and "70" elsewhere. Without parameters it shows "70°C". |
| Formatting.WorkedPower | src/mainwindow/imp.rs:455-485 | "12.7" shows as "12 W", and "abc" shows nothing. |
| Catalog.CreateProvider | src/mainwindow/imp.rs:236-1376 | The tag is the id for 0..3 and 0 otherwise. Every property uses its catalog's fragments. Only catalog 0's temperature formatter converts. |
| Catalog.Keys | src/mainwindow/imp.rs:244-1376 | The key list has one key per property, in order. |
| Catalog.CatalogKeys | src/mainwindow/imp.rs:244-1376 | The exact key order of every catalog, including the fallback's missing "utilization.memory". |
| Catalog.SmiCatalogKeys | src/mainwindow/imp.rs:1154-1376 | The nvidia-smi list has eight keys with "utilization.memory", and seven (the fallback) without it. |
| Catalog.SettingsCatalogKeys | src/mainwindow/imp.rs:491-659 | The five nvidia-settings keys, in order. |
| Catalog.SmiKeysWellFormed | src/mainwindow/imp.rs:244-490 | The nvidia-smi keys are distinct and space-free. The fallback's keys are those keys minus "utilization.memory". |
| Catalog.SettingsKeysWellFormed | src/mainwindow/imp.rs:491-659 | The nvidia-settings keys are distinct and space-free. |
| Catalog.CatalogSizes | src/mainwindow/imp.rs:236-1376 | The catalogs hold 8, 5, 8, 8 and 7 (fallback) distinct metrics. "utilization.memory" is present exactly for ids 0, 2 and 3. |
| Catalog.KeysHaveNoSpace | src/mainwindow/imp.rs:236-1376 | No metric key contains a space. |
| Commands.QueryLayout | src/processor/mod.rs:139-150 | A non-settings command splits into the base, the pieces of start+key, the two end words, then the pieces of the uuid. |
| Commands.SettingsLayout | src/processor/mod.rs:127-138 | A settings command splits into the base, the pieces of start+uuid+middle+key, then the end word. |
| Commands.SmiArgv | src/processor/mod.rs:139-150 | An nvidia-smi query is `nvidia-smi --query-gpu=KEY --format=csv,noheader -i` followed by the pieces of the uuid. |
| Commands.OptimusArgv | src/processor/mod.rs:139-150 | An optirun query is `optirun nvidia-smi --query-gpu=KEY --format=csv,noheader -i` followed by the pieces of the uuid. |
| Commands.SettingsArgv | src/processor/mod.rs:127-138 | An nvidia-settings query is `nvidia-settings -q=[gpu:UUID]/KEY -t`. |
| Commands.CatalogCommandsRun | src/processor/mod.rs:189-386 | For a space-free uuid every catalog property passes the arity gate, with 5, 3, 5, 6 and 5 arguments. |
| Commands.UuidSpacesDecideSmiRun | src/processor/mod.rs:155-386 | An nvidia-smi query has 5 + (spaces in uuid) arguments. With one space or none it runs; with two or more it gives `Ok(None)` without running. |
| Reconciler.FirstNamed | src/mainwindow/imp.rs:1407 | `child_by_name` finds the first page registered under the name, or reports none. |
| Reconciler.RemoveNamed | src/mainwindow/imp.rs:1404-1418 | A missing page leaves the stack unchanged. Otherwise exactly the first page under the name is removed and the others keep their order. |
| Reconciler.RemoveAll | src/mainwindow/imp.rs:1404-1418 | Clearing never grows the stack, and with no stored names it leaves the stack unchanged. |
| Reconciler.BuildPages | src/mainwindow/imp.rs:1443-1469 | One page per uuid, in order, with the provider. The title is the GPU's name, or the uuid when the name lookup fails. |
| Reconciler.Choose | src/mainwindow/imp.rs:1425-1438 | The provider is rebuilt from the setting exactly when there is none or its type differs from the setting; otherwise the existing one is kept. |
| Reconciler.Refresh | src/mainwindow/imp.rs:1396-1564 | The names are drained. The provider is rebuilt exactly as `Choose` says, and is set afterwards. Pages are appended (none on a failed enumeration) and the old pages are kept as a prefix. The pages left on the stack are those not cleared, followed by the new pages handed to it. |
| Reconciler.InRangeSettingIsReused | src/mainwindow/imp.rs:1430-1437 | Refreshing twice with a setting in 0..3 reuses the provider built by the first refresh. |
| Reconciler.OutOfRangeSettingAlwaysRebuilds | src/mainwindow/imp.rs:1154-1376 | A setting outside 0..3 builds a provider tagged 0, so every refresh with it rebuilds the provider. |
| Reconciler.RunOnlyAppends | src/mainwindow/imp.rs:1404 | From an empty name list, any sequence of refreshes, each with its own setting and its own GPU enumeration, keeps the names empty. The pages handed to the stack stay equal to the page list, and earlier pages are never removed. |
| Reconciler.RefreshAppends | src/mainwindow/imp.rs:1443-1469 | A successful enumeration appends one page per GPU, in order, to the page list. With no stored names, the same pages are handed to the stack. |
| Reconciler.RefreshTwiceDuplicates | src/mainwindow/imp.rs:1396-1564 | From a fresh window, two refreshes over the same GPUs leave every GPU in `gpu_pages` twice, in order. The stack is handed the same pages. |

## Left out

- GObject, GTK and UI plumbing (widgets, `ScrolledWindow`, template children, settings windows, custom buttons) and `build.rs`: not part of the telemetry logic.
- The settings store: the "provider" setting is a parameter of `Reconciler.Refresh`.
- `exec_communicate_sync`: a function parameter (`exec`) that returns captured stdout and stderr or a launch failure. Byte buffers, and decoding them with `String::from_utf8_lossy`, are not modelled: output is taken to be text.
- The provider's own GPU enumeration and name lookup (`get_gpu_uuids`, `get_gpu_data(uuid, "name")`): these are the `enumerate` and `nameOf` parameters of each refresh (a `Reconciler.Tick` in a run), because the provider module is not part of this model.
- GTK's handling of duplicate child names on `add_titled` is not modelled. The model's stack is the sequence of pages handed to `add_titled` and not removed, whatever their names, and `child_by_name` finds the first one. What GTK displays for a repeated name is outside the model.
- Console logging (`println!`): it has no effect on results.
- Panics on impossible paths (`todo!()`, "cannot grab known existing provider", invalid UTF-8 after a UTF-8 split): these cannot happen in the model.
- Formatter panics (`input.get(0).unwrap()` on no lines, indexing past the ", " or '=' splits) are the `Formatting.Accepts` precondition, not a modelled outcome.
- Numerals.ParseDecimal: accepts only unsigned `digits[.digits]`. A sign, an exponent, "inf" and "nan", which `parse::<f64>` also accepts, are treated as parse errors. This is because nvidia-smi and nvidia-settings report unsigned decimals.
- Numerals.Floor: exact rational flooring of the decimal. The rounding of `f64` arithmetic (`t * 9.0 / 5.0 + 32.0` and binary representation) is not modelled, so readings with very many digits may floor differently in the program.
- Processing.Tokenise: works on characters. The source splits UTF-8 bytes at b' ', which gives the same pieces because a space byte never occurs inside a multi-byte character.
