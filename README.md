# Crypto wallet tool chest, modelled in Dafny

This project models the deterministic core of a small Python repository of crypto-wallet utilities. It covers:

- **The offline key and address encoder** (`tools/brain_wallet.py`):
  - Base58Check;
  - the Bech32 checksum and string (BIP-173);
  - the bit regrouping `convertbits`;
  - WIF private keys;
  - P2PKH, P2SH-P2WPKH and Bech32 P2WPKH Bitcoin addresses;
  - EIP-55 mixed-case Ethereum addresses.
- **The multi-chain balance scanner** (`scanner/`):
  - the result log with its profit list (`ScannerUI`);
  - the cached USD price oracle;
  - the adapter registry filled by the `@register` decorator;
  - the YAML configuration loader;
  - the per-chain worker loops of the `scan` and `snapshot` commands.
- **The repository scanner** (`tools/scan_repo.py`):
  - the line table;
  - the index-to-line lookup;
  - the snippet window;
  - the 30-line decoded-payload preview;
  - the directory skip rule;
  - the per-kind tally and the exit code.
- **The interactive wallet menu** (`app/cli.py`):
  - `prompt` and `prompt_int`;
  - the word-count check;
  - the script and chain menus;
  - the BTC and EVM derivation loops;
  - the satoshi clamp.
- **The desktop demo window** (`app/main.py`):
  - `format_int_with_spaces`;
  - the chain and search toggles;
  - the periodic tick.

## How things are represented

- Hash functions are parameters of the model: SHA-256 and Keccak-256 are `Digest32`, HASH160 is `Digest20`. Only their digest lengths are fixed.
- The same goes for elliptic-curve point multiplication and BIP-32/39/44 derivation. Derivation is a function giving the address at each index.
- Clocks, HTTP answers, the adapters' balance answers and `random.randint` are inputs of the operations that use them.
- Standard input is the sequence of lines still to be read.
- A Python `float` is a Dafny `real`.

Files (one Dafny module each):

- `common.dfy`: `Option`, bytes, ASCII case mapping, `str.strip`, decimal digits.
- `bits.dfy`: powers of two and bitwise exclusive-or on naturals.
- `convertbits.dfy` (module `BitGroups`)
- `base58.dfy`
- `bech32.dfy`
- `addresses.dfy`
- `scanner_ui.dfy`
- `price.dfy`
- `registry.dfy`
- `config.dfy`
- `worker.dfy`
- `scan_repo.dfy`
- `app_cli.dfy`
- `app_main.dfy`

Where the source changes state step by step, the model does too:

- `ScannerUI`, `PriceOracle`, `AdapterRegistry` and the desktop `App` are classes whose methods update their fields.
- Each loop of the source is a method with a loop. Its postcondition ties the result to a specification function, and the source's promises are lemmas about that function.

## Model

| member | source | states |
|---|---|---|
| Common.Upper | scanner/config.py:52 | `str.upper` on ASCII: same length, no lower-case letter left, each character equal to the input's up to case |
| Common.UpperIdempotent | scanner/chains/__init__.py:20 | upper-casing twice is upper-casing once, and an upper-case string is left unchanged |
| Common.UpperIgnoresCase | scanner/chains/__init__.py:27 | strings equal up to case upper-case to the same string |
| Common.Strip | scanner/config.py:51 | `str.strip`: the result has no white space at either end, is a slice of the input after its leading white space, and only white space follows it |
| Common.StripEmptyIffAllSpace | app/cli.py:39-40 | a line strips to `""` exactly when it is all white space |
| Common.NatDecimal | app/main.py:14 | the decimal numeral of a natural: non-empty, all digits, its value is the number, no leading zero except for 0 itself |
| Common.Decimal | app/main.py:14 | `str(n)`: non-empty, with a leading `-` exactly when `n` is negative; after it, one or more digits whose value is `abs(n)` and which start with `0` only for 0 itself |
| Common.RemoveCharAppend | app/main.py:14 | removing a character distributes over concatenation |
| Common.RemoveCharNone | app/main.py:206 | `replace(c, "")` leaves a string without `c` unchanged |
| Common.RemoveCharKeeps | app/main.py:206 | removing `c` keeps every other character and adds none |
| BitGroups.FeedAll | tools/brain_wallet.py:102-109 | the regrouping loop fails exactly when some input value is negative or wider than `frombits`; otherwise it leaves fewer than `tobits` pending bits, whole output groups, and accounts for every input bit |
| BitGroups.ConvertBitsLoop | tools/brain_wallet.py:96-115 | the imperative `_convertbits` (accumulator, bit count, output list, early `return []`) computes `ConvertBits` |
| BitGroups.NoneExtends | tools/brain_wallet.py:103-104 | once a prefix holds an out-of-range value, the whole input is rejected |
| BitGroups.OutOfRangeGivesEmpty | tools/brain_wallet.py:103-104 | any out-of-range value anywhere makes the result `[]`, whatever `pad` is |
| BitGroups.DrainValue | tools/brain_wallet.py:107-109 | emitting groups keeps the value of the emitted groups followed by the pending bits |
| BitGroups.FeedAllValue | tools/brain_wallet.py:102-109 | after the loop, the emitted groups followed by the pending bits equal the big-endian value of the input |
| BitGroups.TailIsPendingBits | tools/brain_wallet.py:110-113 | the padding group is the pending bits shifted to the top of a group, and is zero exactly when they are |
| BitGroups.PadShape | tools/brain_wallet.py:110-112 | with padding, the output has `ceil(n*frombits/tobits)` groups, each below `2^tobits` |
| BitGroups.WitnessProgramGroups | tools/brain_wallet.py:154 | a 20-byte program regroups into exactly 32 five-bit values |
| BitGroups.ValInjective | tools/brain_wallet.py:105-109 | equal-length group sequences with the same value are equal |
| BitGroups.RoundTrip | tools/brain_wallet.py:96-115 | 8-to-5 with padding then 5-to-8 without padding returns the original bytes, and the intermediate values are all five-bit |
| Base58.AlphabetAscending | tools/brain_wallet.py:53 | the 58-symbol alphabet is strictly ascending, so it has no repeated symbol |
| Base58.OnlyZeroIsOne | tools/brain_wallet.py:62 | `'1'` is the symbol of digit 0 and of no other digit |
| Base58.Digits | tools/brain_wallet.py:51-53 | the base-58 digits of a number: each below 58, none for 0, no leading zero digit otherwise |
| Base58.ValueOfDigits | tools/brain_wallet.py:51-53 | the digits' base-58 value is the number they came from |
| Base58.LeadingZeroBytes | tools/brain_wallet.py:56-61 | the count of leading zero bytes: all counted bytes are zero and the next one is not |
| Base58.FromBytes | tools/brain_wallet.py:47 | `int.from_bytes(data, "big")` is below `2^(8*len(data))`, and is 0 exactly when every byte is 0 |
| Base58.BytesValue | tools/brain_wallet.py:47 | the big-endian value of `n` bytes is below `2^(8n)`, and is 0 exactly when every byte is 0 |
| Base58.LeadingZeroValue | tools/brain_wallet.py:47 | a leading zero byte does not change the big-endian value, so only the leading-`1` loop accounts for it |
| Base58.ReadSpell | tools/brain_wallet.py:53 | writing digits with the alphabet can be read back to the same digits |
| Base58.LeadingOnes | tools/brain_wallet.py:62 | `n` zero symbols before a numeral without a leading zero give exactly `n` leading `'1'`s |
| Base58.EncodeProperties | tools/brain_wallet.py:41-62 | the encoding uses only alphabet symbols, has one leading `'1'` per leading zero byte, and reads back to the big-endian value of the data |
| Base58.EncodeLoop | tools/brain_wallet.py:47-62 | the imperative encoder (divmod loop, zero-byte loop) computes `Encode` |
| Base58.DigitLoop | tools/brain_wallet.py:51-53 | the `divmod` loop that inserts at the front writes the base-58 numeral of the number |
| Base58.CountLeadingZeros | tools/brain_wallet.py:56-61 | the `for b in data` loop with its `break` counts the leading zero bytes |
| Base58.Checksum | tools/brain_wallet.py:43 | the checksum is four bytes |
| Base58.CheckedData | tools/brain_wallet.py:42-44 | version, then payload, then the first four bytes of the double SHA-256 of both |
| Bech32.PolymodLoop | tools/brain_wallet.py:70-78 | the imperative checksum loop computes `Polymod`, and stays below 2^30 for values below 2^30 |
| Bech32.PolymodBound | tools/brain_wallet.py:74-77 | each step keeps the checksum state below 2^30 |
| Bech32.PolymodFromAppend | tools/brain_wallet.py:73 | running the checksum over `a + b` is running it over `a`, then over `b` |
| Bech32.MixLinear | tools/brain_wallet.py:76-77 | mixing in the generator words commutes with exclusive-or into the low bits |
| Bech32.HrpExpand | tools/brain_wallet.py:81-82 | `2*len(hrp)+1` values, a 0 in the middle, the second half five-bit, and `high*32+low` is each character's code point |
| Bech32.CreateChecksum | tools/brain_wallet.py:85-88 | six five-bit symbols |
| Bech32.ChecksumVerifies | tools/brain_wallet.py:85-92 | data followed by its checksum passes BIP-173 verification: the polymod of the expanded hrp, data and checksum is 1 |
| Bech32.Written | tools/brain_wallet.py:93 | each value is written as its charset symbol, one character per value |
| Bech32.Encode | tools/brain_wallet.py:91-93 | hrp, `'1'`, then data and checksum in charset symbols, six characters longer than hrp + 1 + data; the data symbols write the data values and the last six write `CreateChecksum(hrp, data)` |
| Bech32.Position | tools/brain_wallet.py:66 | the position of a character in the charset, or -1 when it is not a charset symbol; a position found is the character's index |
| Bech32.PositionOfCharset | tools/brain_wallet.py:66 | each charset symbol is found at its own index, so the 32 symbols are distinct |
| Bech32.Read | tools/brain_wallet.py:93 | a BIP-173 decoder's reading of charset text: one five-bit value per character, which writes back to the same text |
| Bech32.ReadWritten | tools/brain_wallet.py:93 | written values read back to themselves |
| Bech32.EncodeVerifies | tools/brain_wallet.py:91-93 | the encoded string, read after hrp and `'1'`, gives the data back and passes the BIP-173 checksum test |
| Addresses.WifData | tools/brain_wallet.py:125-128 | version `0x80` (mainnet) or `0xef`, the key, `0x01` when compressed, then the four-byte checksum |
| Addresses.P2pkhData | tools/brain_wallet.py:140-142 | 25 bytes: version `0x00` or `0x6f`, HASH160 of the key, checksum |
| Addresses.P2pkhMainnetStartsWithOne | tools/brain_wallet.py:140-142 | a mainnet P2PKH address starts with `'1'`, and has exactly one leading `'1'` when the hash does not start with a zero byte |
| Addresses.RedeemScript | tools/brain_wallet.py:147 | 22 bytes: `00 14` then HASH160 of the key |
| Addresses.P2shData | tools/brain_wallet.py:145-149 | 25 bytes: version `0x05` or `0xc4`, HASH160 of the redeem script, checksum |
| Addresses.WitnessDataShape | tools/brain_wallet.py:153-154 | witness version 0 then 32 five-bit values that decode back to the 20-byte program |
| Addresses.Bech32AddressShape | tools/brain_wallet.py:152-155 | `hrp`, `'1'`, `'q'`, 38 more charset symbols (hrp + 40 in all); read back after `hrp1`, the symbols pass the checksum, start with witness version 0, and the next 32 values regroup to HASH160 of the key |
| Addresses.HexChar | tools/brain_wallet.py:170 | a hex digit in lower case whose value is the nibble |
| Addresses.Hex | tools/brain_wallet.py:170 | `bytes.hex()`: two lower-case hex digits per byte |
| Addresses.HexPair | tools/brain_wallet.py:170 | the two digits of byte `j` read back to that byte |
| Addresses.Eip55 | tools/brain_wallet.py:173-179 | `0x` then 40 characters |
| Addresses.Eip55Casing | tools/brain_wallet.py:176-179 | lower-casing gives the plain hex address back; a character is upper-case exactly when it is a letter `a`-`f` whose nibble in the Keccak hex digest of the address is at least 8 |
| Addresses.EthAddress | tools/brain_wallet.py:158-179 | `0x` and 40 characters that lower-case to the hex of the last 20 bytes of the Keccak digest of the public key |
| ScannerUi.ProfitSign | scanner/ui.py:26-28 | `value_usd > 0` exactly when balance and price are both positive or both negative |
| ScannerUi.Profitable | scanner/ui.py:47-48 | the profit list is no longer than the log |
| ScannerUi.ProfitableSnoc | scanner/ui.py:44-48 | a new result extends the profit list by itself exactly when its value is positive |
| ScannerUi.ProfitableMembers | scanner/ui.py:47-48 | a result is in the profit list exactly when it was recorded and its value is positive |
| ScannerUi.ScannerUI.constructor | scanner/ui.py:32-36 | a new UI has count 0, empty log and profit list, and no stop |
| ScannerUi.ScannerUI.Stop | scanner/ui.py:38-39 | sets the stop flag |
| ScannerUi.ScannerUI.RecordResult | scanner/ui.py:44-48 | count +1, the result appended to the log, and to the profits exactly when its value is positive; the count stays the log length |
| ScannerUi.RecentResults | scanner/ui.py:60 | `[-10:]`: the last `min(10, n)` results, in order |
| ScannerUi.BestIndex | scanner/ui.py:65 | `max(..., key=value_usd)`: an index of greatest value, the first such one |
| ScannerUi.Best | scanner/ui.py:63-65 | no best exactly when there are no profits; otherwise a member of greatest value |
| Price.CoinId | scanner/price.py:34-48 | only upper-case symbols have a coin id, and every id is non-empty |
| Price.FetchPriceUsd | scanner/price.py:46-59 | an unmapped symbol gives `None`; a mapped one gives the request's answer |
| Price.PriceIgnoresCase | scanner/price.py:23 | symbols equal up to case get the same price and leave the same cache |
| Price.CacheHit | scanner/price.py:24-26 | with a fresh cached quote, the cached price is returned whatever the network would say, and the cache is unchanged |
| Price.FetchStored | scanner/price.py:27-30 | on a miss, a fetched price is returned and stored under the upper-cased symbol, stamped with the later clock |
| Price.FetchFailed | scanner/price.py:27-30 | a failed fetch returns `None`, even over a stale quote, and the cache is unchanged |
| Price.UnmappedSymbol | scanner/price.py:46-48 | an unmapped symbol yields `None` and leaves the cache unchanged |
| Price.OthersUntouched | scanner/price.py:29 | a lookup changes no other symbol's entry |
| Price.LookupKeepsCache | scanner/price.py:22-30 | the cache stays keyed by upper-case mapped symbols, each quote under its own symbol |
| Price.PriceOracle.constructor | scanner/price.py:18-20 | given TTL, empty cache |
| Price.PriceOracle.Default | scanner/price.py:18 | the default TTL is 60 seconds |
| Price.PriceOracle.GetPriceUsd | scanner/price.py:22-30 | the answer and the new cache are those of `GetPrice` on the old cache |
| Registry.ClassSymbol | scanner/chains/eth_like.py:29 | every adapter class is registered under an upper-case symbol |
| Registry.LastRegistrationWins | scanner/chains/__init__.py:18-23 | registrations under one symbol up to case: the last one is found under any spelling |
| Registry.RegisterOthersUntouched | scanner/chains/__init__.py:20 | registering one symbol changes no other lookup |
| Registry.FindIgnoresCase | scanner/chains/__init__.py:27 | lookups are insensitive to case |
| Registry.ClassSymbolInjective | scanner/chains/btc_like.py:27 | no two adapter classes share a symbol |
| Registry.EachRegistered | scanner/chains/btc_like.py:49 | after all the decorators have run, each class is found under its own symbol |
| Registry.ChainAdapter.constructor | scanner/chains/__init__.py:28 | `cls()` makes an adapter of that class |
| Registry.AdapterRegistry.constructor | scanner/chains/__init__.py:15 | the registry starts empty |
| Registry.AdapterRegistry.Register | scanner/chains/__init__.py:18-23 | stores the class under the upper-cased symbol and hands the class back unchanged |
| Registry.AdapterRegistry.GetAdapter | scanner/chains/__init__.py:26-28 | `None` exactly when no class is registered under the upper-cased symbol; otherwise a new instance of that class |
| Registry.AdapterRegistry.RegisterAll | scanner/chains/avax.py:10 | importing the adapter modules registers the ten classes in order |
| Config.CleanAddresses | scanner/config.py:51 | the kept addresses are no more than the entries, and each is non-empty with no white space at either end |
| Config.CleanAppend | scanner/config.py:51 | cleaning keeps the entries' order |
| Config.CleanMembers | scanner/config.py:51 | an address is kept exactly when it is non-empty and some non-null entry strips to it |
| Config.ChainOf | scanner/config.py:50-52 | the symbol is the upper-cased `symbol` entry, or the upper-cased key when none is given; no `addresses` entry gives no addresses, otherwise the cleaned list |
| Config.ChainsKeys | scanner/config.py:48-52 | the configured chains are exactly the upper-cased keys of the entries |
| Config.LastEntryWins | scanner/config.py:52 | of the keys equal up to case, the last entry's settings are kept |
| Config.ChainsUpperCase | scanner/config.py:52 | every chain key and every symbol is upper-case |
| Config.LoadConfig | scanner/config.py:41-58 | the file's document, or `DEFAULT_CONFIG` without one; the chains are those of the entries; the quote currency is `USD` when missing, null or empty and otherwise the upper-cased value; the price source is `coingecko` when missing, null or empty and otherwise the value |
| Config.DefaultConfig | scanner/config.py:23-38 | with no file, exactly the ten default chains, each under its own symbol with no addresses, in USD from CoinGecko |
| Config.NoChains | scanner/config.py:49 | a missing, null or empty `chains` configures nothing |
| Worker.EffectiveInterval | scanner/cli.py:32-33 | `--fast` caps the interval at 0.3 s; without it the interval is unchanged |
| Worker.ScanPrice | scanner/cli.py:41 | `or 0.0`: no price counts as 0 |
| Worker.SnapshotPrice | scanner/cli.py:112 | `or price`: no answer, or an answer of exactly 0, keeps the previous price; a new price is always the non-zero answer |
| Worker.Answered | scanner/cli.py:45-48 | the results of the answered addresses, each with the chain's symbol and the cycle's price |
| Worker.SubsequencePrefix | scanner/cli.py:42-48 | a prefix of a subsequence is a subsequence |
| Worker.SubsequenceMembers | scanner/cli.py:42-48 | every element of a subsequence is in the whole |
| Worker.AnsweredInOrder | scanner/cli.py:42-48 | the answered polls of a cycle over the address list record addresses of that list, in its order |
| Worker.PrefixInOrder | scanner/cli.py:42-48 | any prefix of the answered results has addresses in list order, the chain's symbol and the cycle's price |
| Worker.ScanCycleRecordsPrefix | scanner/cli.py:42-60 | a `scan` cycle records a prefix of the answered addresses, in order |
| Worker.ScanCycleHalts | scanner/cli.py:43-44 | once the flag is set, nothing more is polled |
| Worker.ScanCycleSkips | scanner/cli.py:46-47 | an address without a balance is skipped |
| Worker.ScanCycleRecords | scanner/cli.py:48-60 | an answered address is recorded, and a profit under `stop_on_profit` stops the cycle right after it |
| Worker.ScanCycleComplete | scanner/cli.py:42-60 | without stop requests or `stop_on_profit`, every answered address is recorded and the flag stays clear |
| Worker.ScanCycleStopsOnProfit | scanner/cli.py:49-60 | without outside stop requests, a cycle sets the flag only under `stop_on_profit`, right after a result reaching `profit_min_usd`, and every earlier result fell short of it |
| Worker.ScanCycleInOrder | scanner/cli.py:42-60 | a `scan` cycle records addresses of the list in the list's order, each with the chain's symbol and the cycle's price |
| Worker.SnapshotCycleRecordsPrefix | scanner/cli.py:113-119 | a `snapshot` cycle records a prefix of the answered addresses, and sets the flag only when a stop was requested |
| Worker.SnapshotCycleTimeUp | scanner/cli.py:114-115 | at the deadline the cycle ends without setting the flag |
| Worker.SnapshotCycleInOrder | scanner/cli.py:113-119 | a `snapshot` cycle records addresses of the list in the list's order, each with the chain's symbol and the cycle's price |
| Worker.ScanRoundsFromList | scanner/cli.py:40-61 | every result of the `scan` rounds has the chain's symbol, an address of the list and the price of one of the rounds |
| Worker.SnapshotRoundsFromList | scanner/cli.py:110-120 | every result of the `snapshot` rounds has the chain's symbol, an address of the list, and the starting price or a non-zero answer of one of the rounds |
| Worker.SnapshotCyclePrice | scanner/cli.py:119 | every result of a snapshot cycle carries the price the cycle was given |
| Worker.UnansweredRoundKeepsPrice | scanner/cli.py:112-119 | a round whose oracle lookup fails or answers 0 records its results, first, at the price held before it |
| Worker.RunScanCycle | scanner/cli.py:42-60 | the loop over addresses appends exactly the cycle's results to the UI log and leaves the cycle's flag |
| Worker.ScanWorker | scanner/cli.py:36-61 | no adapter: nothing happens; otherwise the log grows by the results of the rounds polled until the flag is set, each with the chain's symbol and an address of its list |
| Worker.ScanLoop | scanner/cli.py:40-61 | `while not ui.should_stop()`: round after round, as `ScanRounds` says; every appended result has the chain's symbol and an address of the list |
| Worker.RunSnapshotCycle | scanner/cli.py:113-119 | the snapshot loop over addresses appends exactly the cycle's results |
| Worker.SnapshotWorker | scanner/cli.py:105-120 | no adapter: nothing happens; otherwise, starting from the first price (or 0), the rounds until the deadline or a stop, each result with the chain's symbol and an address of its list |
| Worker.SnapshotLoop | scanner/cli.py:111-120 | each round refreshes the price, keeping the old one when there is none; every appended result has the chain's symbol and an address of the list |
| Worker.EligibleWorkers | scanner/cli.py:63-68 | one worker per configured chain in order, skipping chains without addresses |
| Worker.EligibleMembers | scanner/cli.py:64-67 | a worker gets a chain's addresses exactly when that chain has at least one address |
| ScanRepo.SplitLines | tools/scan_repo.py:114 | `splitlines(True)` yields no empty line |
| ScanRepo.SplitLinesConcat | tools/scan_repo.py:114-116 | the lines with their terminators concatenate back to the text |
| ScanRepo.LineOffsets | tools/scan_repo.py:112-116 | one offset per line, each the total length of the lines before it |
| ScanRepo.OffsetsIncrease | tools/scan_repo.py:115-116 | the offsets strictly increase |
| ScanRepo.LineNumberFromIndex | tools/scan_repo.py:118-125 | the linear search yields the number of offsets at most `idx`, and 1 when there are none |
| ScanRepo.LineNumberLocates | tools/scan_repo.py:118-125 | for an increasing table starting at 0, the line found starts at or before `idx` and the next line starts after it |
| ScanRepo.FindingLine | tools/scan_repo.py:130-131 | every finding's line number is a line of the file, and the match starts within that line |
| ScanRepo.Snippet | tools/scan_repo.py:132 | the snippet is the whole match with exactly the `min(start, margin)` characters before it and the `min(margin, len - end)` characters after it, and nothing else |
| ScanRepo.JoinSnoc | tools/scan_repo.py:97-99 | appending a part to a join adds the separator and the part |
| ScanRepo.Lines | tools/scan_repo.py:96 | `splitlines()` gives one line per `splitlines(True)` line |
| ScanRepo.ShownLines | tools/scan_repo.py:97-99 | up to 30 lines shown as they are; more are cut to the first 30 and a truncation marker |
| ScanRepo.Preview | tools/scan_repo.py:96-100 | the preview is the shown lines joined by newlines |
| ScanRepo.DecodePreview | tools/scan_repo.py:90-102 | a preview exists exactly when decoding succeeded |
| ScanRepo.ScanFile | tools/scan_repo.py:105-162 | an empty file has no findings; otherwise one finding per match, with line number, snippet and preview |
| ScanRepo.PythonFiles | tools/scan_repo.py:74-80 | a file is yielded exactly when no component of its path is a skipped directory |
| ScanRepo.Distinct | tools/scan_repo.py:194-196 | the distinct kinds are exactly the kinds found |
| ScanRepo.DistinctIsDistinct | tools/scan_repo.py:194-196 | the distinct kinds have no repetition |
| ScanRepo.KindsCount | tools/scan_repo.py:194-196 | the tally has exactly the kinds found as keys, each with its number of findings |
| ScanRepo.CountAbsent | tools/scan_repo.py:196 | a kind never found has count 0 |
| ScanRepo.SumCountsShift | tools/scan_repo.py:196 | one more finding raises the total over distinct keys by one exactly when its kind is a key |
| ScanRepo.SumCountsNew | tools/scan_repo.py:196 | a new kind adds one to the total |
| ScanRepo.TallyTotal | tools/scan_repo.py:194-199 | the per-kind counts add up to the total number of findings |
| ScanRepo.ScanMain | tools/scan_repo.py:172-208 | exit code 2 when the root does not exist and 0 otherwise; no tally without findings; otherwise the per-kind tally |
| AppCli.Prompt | app/cli.py:30-34 | the next line and the rest of input, or `""` at end of input |
| AppCli.GroupedDigits | app/cli.py:43 | the digits of an underscore-grouped numeral: non-empty and all digits |
| AppCli.GroupedDigitsUngroup | app/cli.py:43 | those digits are exactly the numeral with its underscores removed |
| AppCli.DigitsGrouped | app/cli.py:43 | a plain digit string is a well-formed numeral of itself |
| AppCli.ParseInt | app/cli.py:43 | `int()` accepts only text starting with a digit or a sign |
| AppCli.ParseDecimal | app/cli.py:43 | `int(str(n)) == n` |
| AppCli.ReplyTo | app/cli.py:39-49 | a line is blank exactly when it strips to `""`; it is accepted exactly when it parses to a number in range, which is then the answer; otherwise it is asked again |
| AppCli.Replies | app/cli.py:38-39 | the reply to each line of input |
| AppCli.Settle | app/cli.py:38-50 | the loop reads no more lines than there are |
| AppCli.SettleRetry | app/cli.py:45-49 | a rejected line is skipped and the next one decides |
| AppCli.ReadReply | app/cli.py:39-49 | one turn of the loop gives the reply `ReplyTo` says |
| AppCli.PromptInt | app/cli.py:37-50 | the imperative `prompt_int` loop answers, and consumes input, as `PromptIntResult` says |
| AppCli.SettleDecides | app/cli.py:38-50 | the first line that is not rejected decides, and the lines after it are not read |
| AppCli.PromptIntDecides | app/cli.py:37-50 | every line before the deciding one is rejected; at end of input the answer is the default; a blank deciding line gives the default; otherwise it holds the in-range answer |
| AppCli.PromptIntInRange | app/cli.py:37-50 | the answer is the default or within `[min, max]` |
| AppCli.MnemonicWordCount | app/cli.py:55-58 | a mnemonic is generated only for 12 or 24 words |
| AppCli.WordCountRefused | app/cli.py:56-58 | an accepted count strictly between 12 and 24 is refused |
| AppCli.WordCountAtEnd | app/cli.py:55 | at end of input the default of 12 words is used |
| AppCli.BtcScriptOf | app/cli.py:87-94 | a known script name selects the scheme of that name |
| AppCli.ScriptNamesRoundTrip | app/cli.py:87-92 | each scheme's name selects that scheme |
| AppCli.AddressRange | app/cli.py:96-98 | `max(0, count)` addresses, the one at each index |
| AppCli.DeriveBtcAddresses | app/cli.py:78-99 | an unknown script type raises; otherwise `count` addresses of the chosen scheme by index |
| AppCli.EvmCoinOf | app/cli.py:111-121 | BSC exactly for a BSC alias, Polygon exactly for a Polygon alias, Ethereum for everything else, all after lower-casing |
| AppCli.EvmCoinIgnoresCase | app/cli.py:111 | chain labels equal up to case select the same coin |
| AppCli.DeriveEvmAddresses | app/cli.py:102-129 | `count` addresses for the selected coin, by index |
| AppCli.ChoiceOr | app/cli.py:152 | `.strip() or default`: the stripped answer when it is not blank, the default when it is; a non-empty default makes the choice non-empty |
| AppCli.BlankAnswerDefaults | app/cli.py:152-160 | a blank answer chooses chain `1`, and a blank script answer chooses Bech32 |
| AppCli.ScriptChoice | app/cli.py:159-160 | every choice selects a supported script: `1` P2PKH, `2` P2SH-P2WPKH, anything else Bech32 |
| AppCli.ChainChoice | app/cli.py:166-167 | `3` selects BSC, `4` Polygon, anything else Ethereum |
| AppCli.DeriveCountInRange | app/cli.py:145 | the address count is between 1 and 50 |
| AppCli.SatoshiBalance | app/cli.py:205-208 | `max(0, funded - spent)`: never negative, at least `funded - spent`, and either 0 or exactly that |
| AppMain.FormatIntWithSpaces | app/main.py:13-15 | the formatted number is never empty |
| AppMain.GroupedRoundTrip | app/main.py:14 | grouping digits only inserts the separator: removing it gives the digits back |
| AppMain.GroupedSeparates | app/main.py:208 | more than three digits are grouped with at least one separator |
| AppMain.GroupedCharacters | app/main.py:14 | grouping adds only separators to the digits |
| AppMain.GroupedLayout | app/main.py:14 | `len(d) + (len(d)-1)//3` characters, a space exactly at every fourth position from the right |
| AppMain.FormatRoundTrip | app/main.py:13-15 | removing the spaces gives back `str(value)` |
| AppMain.InitialSelection | app/main.py:91-107 | one flag per chain button, set exactly for BTC, ETH and MATIC |
| AppMain.ThreeSelected | app/main.py:107 | three chains start selected |
| AppMain.Toggled | app/main.py:166-168 | the named flag is flipped and every other flag is kept |
| AppMain.ToggleTwice | app/main.py:166-168 | toggling twice restores the selection |
| AppMain.ButtonText | app/main.py:172 | the caption is `Stop` exactly while searching |
| AppMain.IncrementBounds | app/main.py:201 | a searching tick adds between 20 and 60 times the effective speed, at least 20 |
| AppMain.TickDelay | app/main.py:211 | `max(40, 600 - 50*speed)`: at least both, and equal to one of them |
| AppMain.DelayOnSlider | app/main.py:134-144 | on the slider's range the delay is 100 to 550 ms and never grows with speed |
| AppMain.App.constructor | app/main.py:26-28 | 3 830 672 wallets, not searching, speed 10, the initial selection, the USD text `$1122.87`, labels in step |
| AppMain.App.ToggleChain | app/main.py:166-168 | flips the one flag |
| AppMain.App.ToggleSearch | app/main.py:170-172 | flips searching and recaptions the button |
| AppMain.App.Tick | app/main.py:198-212 | while searching, the counter grows by the increment and its label follows; then the USD text goes through `float`: when that raises, no next tick is scheduled and the text is kept, otherwise the text is the walked amount and the next delay is `TickDelay(speed)`; when not searching, only the delay |
| AppMain.Cents | app/main.py:208 | the amount rounded to the nearest cent: within half a cent |
| AppMain.TwoDigits | app/main.py:208 | the two cent digits, with a leading zero, whose value is the number |
| AppMain.ParseFloat | app/main.py:206 | `float()` accepts only a sign, digits and a point, and refuses any text with a comma |
| AppMain.UsdAfterTick | app/main.py:206-208 | raises exactly when `float` raises on the text without `$`; the walked text starts with `$` |
| AppMain.WalkReadsBack | app/main.py:206-208 | when the text reads as `usd`, the walked text, read back without `$` and commas, is `usd` plus the drift rounded to the cent |
| AppMain.InitialUsdValue | app/main.py:75 | the opening text `$1122.87` reads as 1122.87 once the `$` is removed |
| AppMain.MoneyTextComma | app/main.py:208 | `f"{x:,.2f}"` of 1000 or more contains a comma |
| AppMain.LargeAmountRaises | app/main.py:206-208 | once the text shows 1000 dollars or more, the next searching tick raises |
| AppMain.SecondSearchingTickRaises | app/main.py:205-208 | from the opening text `$1122.87` (line 75) the first searching tick succeeds and the second raises, for every drift of `uniform(-2.0, 3.0)` |
| AppMain.SearchTwice | app/main.py:170-212 | opening the window, starting the search and two ticks: the first schedules the next tick, the second raises |
| AppMain.RoundedToCents | app/main.py:208 | the amount the text shows is within half a cent of the amount |
| AppMain.ParsePointed | app/main.py:206 | digits, a point and digits read back as their value |
| AppMain.FixedTickReadsBack | app/main.py:206-208 | with the commas removed too, the written text reads back as the amount rounded to the cent |
| AppMain.CentsReadBack | app/main.py:206-208 | the same for a signed amount of cents |
| AppMain.CommasRemoved | app/main.py:208 | removing the commas from the amount text leaves the sign, the whole digits, the point and the cents |
| AppMain.DollarRemoved | app/main.py:206 | removing `$` from the written text leaves the amount text |
| AppMain.CentsRead | app/main.py:206 | the whole part and two cent digits read back as the cents over 100 |
| AppMain.FixedTickNeverRaises | app/main.py:206-208 | the corrected tick never raises on a text it wrote |

## Left out

- Hashing and curve arithmetic (SHA-256, RIPEMD-160, Keccak-256, secp256k1 with `ecdsa`) are parameters; nothing about their values beyond digest length is modelled. `derive_private_key`, `private_to_pubkey_compressed` and the command-line `main` of `tools/brain_wallet.py` are not modelled for this reason.
- BIP-39 mnemonic generation and validation and BIP-32/44/49/84 derivation (`bip_utils`) are external: derivation is the `addressAt` parameter, validation and generation are left out.
- Network I/O is left out: CoinGecko, Blockstream, EVM JSON-RPC and the chain adapters' balance calls. Their answers are inputs (`response`, `Poll.balance`, the funded and spent sums).
- Threads, `time.sleep`, the clock and the Rich/Tk rendering are left out. The workers of `scanner/cli.py` run one at a time over a finite list of rounds. The UI state they share is updated without a lock in the source, and interleavings are not modelled.
- The clipboard copy of the best profit in `scan` (scanner/cli.py:50-57) and the `_copy_btc` button are left out. The best-result choice is modelled as `ScannerUi.Best`.
- The live display loop, the snapshot's HTML/SVG export and `ScannerUI.render`'s formatting are left out. Only the last-ten window and the best result are modelled.
- The drift of `random.uniform(-2.0, 3.0)` in `_tick` (app/main.py:207) is an input of `App.Tick`, like the roll of `random.randint`.
- YAML parsing and the file-existence test of `load_config` are left out: the parsed document, or `None`, is the input.
- Regular-expression matching, file reading, directory walking, base64/zlib decoding, the sort of findings and the printing in `tools/scan_repo.py` are left out. Matches, decoded texts, path components and the kinds of the findings are inputs.
- `Finding.to_display` (tools/scan_repo.py:38-45) is output formatting and is left out.
- Prompt texts and messages printed by `app/cli.py` are left out. The balance-check action's URL and RPC selection are left out, apart from the satoshi clamp.
- `decoded_payload.py`, `app/stripe_server.py`, `app/tesseract_helper.py` and the screenshot and preview generators are not part of this model.
- Common.Upper: only ASCII letters change case; Python's `str.upper`/`str.lower` also map non-ASCII letters (and `ß` to `SS`).
- AppCli.ParseInt: accepts ASCII digits, an optional sign, single underscores between digits and surrounding white space already removed by `strip`. Python's `int()` also accepts other Unicode decimal digits.
- BitGroups.ConvertBitsLoop: the `|` of the source is written as `+`, which is equal because the low `frombits` bits of `acc << frombits` are zero. `tobits` is required to be at least 1; the source is only called with 5 and 8.
- Config.ChainOf: a `symbol:` or chain entry that is present but null makes the source raise when it calls `.upper()` or `.get`; the model treats a null symbol like a missing one and does not model the crash.
- Worker.SnapshotLoop: the deadline test `time.time() - start_ts < duration` is the per-round and per-poll `timeUp` input, not a clock.
- Worker.ScanLoop: the source loops until stopped; the model covers any finite number of rounds.
- Worker.EligibleWorkers: the order of the chains is an input, the insertion order of the `cfg.chains` dictionary; the model does not derive it from the configuration file.
- Config.LoadConfig: the parsed document holds only strings or null where the source expects strings. YAML can also give numbers, booleans or lists there, and the source then behaves in ways the model does not cover. An integer address entry makes `.strip()` raise (scanner/config.py:51). A `0` or `false` address entry is skipped as falsy. A non-string chain key makes `key.upper()` raise, and so does a non-string or null `symbol` (scanner/config.py:52).
- AppMain.ParseFloat: reads only an optional sign, then digits with at most one point among them and at least one digit in all. Python's `float()` also accepts exponents, underscores, surrounding white space, `inf` and `nan`; none of these can appear in the text `_tick` writes.
- AppMain.MoneyText: rounds an exact real to the cent, halves up. Python formats the binary double nearest to the amount, which can round a tie the other way; the comma grouping, which is what matters for the tick, is the same.

## Findings

| source | as written | input that shows it | evidently intended | confidence | as-written member | corrected member |
|---|---|---|---|---|---|---|
| app/main.py:206-208 | `_tick` reads the USD text back with `float(text.replace("$", ""))`, but writes it with `f"${usd:,.2f}"`, which puts a comma in any amount of 1000 dollars or more | start the search from the opening `$1122.87`: the first tick writes `$1,12x.xx` for any drift in `[-2, 3]`, and the second tick's `float("1,12x.xx")` raises `ValueError`, so `self.after` (line 212) is never reached and the window stops ticking | remove the commas as well before `float`, so every text the tick writes reads back | not executed | AppMain.SecondSearchingTickRaises | AppMain.FixedTickNeverRaises |

`App.Tick` and `UsdAfterTick` model the code as written: their `None` is the `ValueError`, and `SearchTwice` shows the window stopping after two ticks. `UsdAfterTickFixed` is the corrected step, and `FixedTickReadsBack` proves that what it writes reads back as the amount rounded to the cent.
