# DataSeeker OS fingerprinting and port scanning, modelled in Dafny

This project models the part of DataSeeker that does real computation. It has four parts:

- **TCP ISN analysis** (`isn_analysis.dfy`, with `divisibility.dfy`). It takes the Initial Sequence Numbers a target sent back, together with their timestamps. From them it computes:
  - the wrap-corrected differences of consecutive ISNs and their gcd;
  - the per-interval counter rates and the ISR index;
  - the sequence-predictability index SP.

  Each stage is a class whose methods fill its fields in place, as the source's classes do. Each method is proved against a specification function. The lemmas then prove what the program promises about those functions: the gcd divides every difference, only positive intervals give a rate, ISR is unset below a mean of 1, SP needs four rates, and so on.
- **Probe battery** (`os_fingerprint.dfy`, with `tcp_options.dfy`). These are the fixed SEQ/OPS/WIN/T1, IE, T2–T7 and U1 probes, as constant functions whose contracts pin down windows, flags, ports, DF bits, payloads and option order. A TCP option encoder follows section 3.2 of RFC 9293 (EOL, NOP, MSS), sections 2.2 and 3.2 of RFC 7323 (Window Scale, Timestamps) and section 2 of RFC 2018 (SACK-Permitted). It has a decoder and a round-trip proof. The option list shared by T2–T7 is proved to encode to `03030A0102040109080AFFFFFFFF000000000402`.
- **MAC and geolocation helpers** (`simple_commands.dfy`). These cover MAC normalisation and vendor lookup, the fields kept from a geolocation reply, and the dot padding of the displayed labels.
- **Port scanner** (`port_scanner.dfy`, with `text.dfy`):
  - port-list preparation, including the random order;
  - reply classification and the print filter;
  - the delay schedule of a delayed scan;
  - the placement of the scanner's own address among the decoys.

  `text.dfy` models the Python string operations these steps rely on: `str.split`, `str.join`, and `int()`/`float()` on decimal text.

`wrappers.dfy` holds the `Option` and `Result` types. An exception the source raises on a modelled path becomes a `Failure` or an error result, or a `None` field where the source leaves a field unset. One exception is not modelled this way: the IndexError of `_calculate_sequence_rates` when there are fewer timestamps than differences. The methods that compute the rates require enough timestamps instead (see Left out).

Functions the model does not compute are passed in as parameters:
- `math.log2`, `math.sqrt` and `round`;
- the draws of `random.sample`, `random.randint` and `random.uniform`.

The packets exchanged with a target are given to the model as values.

## Model

| member | source | states |
|---|---|---|
| IsnAnalysis.WrapDiff | code/os_fing_pkt_analysis_classes.py:33-37 | For ISNs in the 32-bit range, the wrap-corrected difference lies between 0 and 2^31. |
| IsnAnalysis.WrapDiffSymmetric | code/os_fing_pkt_analysis_classes.py:35-37 | The wrap-corrected difference does not depend on the order of the pair. |
| IsnAnalysis.WrapDiffIsCircularDistance | code/os_fing_pkt_analysis_classes.py:33-37 | For 32-bit ISNs the difference is a step from `a` to `b` modulo 2^32, forwards or backwards. No step congruent to `b - a` is shorter. |
| IsnAnalysis.GreatestCommonDivisor.constructor | code/os_fing_pkt_analysis_classes.py:14-17 | A new object holds the ISNs, an empty `diff1` and no gcd. |
| IsnAnalysis.GreatestCommonDivisor.CalculateDiff1AndGcd | code/os_fing_pkt_analysis_classes.py:26-29 | Appends the differences. Returns them with their fold gcd and stores that gcd. With no differences it fails (`reduce` raises) and the gcd field is unchanged. |
| IsnAnalysis.GreatestCommonDivisor.CalculateDiff1 | code/os_fing_pkt_analysis_classes.py:32-37 | The loop appends exactly `Diff1(isns)`: one wrap-corrected difference per adjacent pair, in order. |
| IsnAnalysis.GreatestCommonDivisor.CalculateGcd | code/os_fing_pkt_analysis_classes.py:40-41 | Stores and returns the gcd fold of `diff1`. On an empty list it fails and leaves the field alone. |
| IsnAnalysis.Diff1Entries | code/os_fing_pkt_analysis_classes.py:34-37 | `diff1` has `len(isns) - 1` entries (none for fewer than two ISNs). Entry `i` is the wrap-corrected difference of ISNs `i` and `i+1`. |
| IsnAnalysis.GcdOfDifferences | code/os_fing_pkt_analysis_classes.py:40-41 | For two or more ISNs, the gcd divides every difference, and every common divisor divides it. With two ISNs it is that single difference. |
| Divisibility.PyGcd | code/os_fing_pkt_analysis_classes.py:41 | `math.gcd` is a common divisor of its arguments that every common divisor divides. |
| Divisibility.GcdIsGreatestCommonDivisor | code/os_fing_pkt_analysis_classes.py:41 | Euclid's algorithm on naturals gives a common divisor that every common divisor divides. |
| Divisibility.FoldGcdAppend | code/os_fing_pkt_analysis_classes.py:41 | Folding over a list with one more element applies `gcd` once more, with that element. |
| Divisibility.FoldGcdDivisors | code/os_fing_pkt_analysis_classes.py:41 | `d` divides the fold exactly when `d` divides every element. |
| Divisibility.FoldGcdPermutation | code/os_fing_pkt_analysis_classes.py:41 | The fold does not depend on the order of the differences. |
| IsnAnalysis.KeptIntervals | code/os_fing_pkt_analysis_classes.py:69-72 | The kept intervals are exactly those with positive elapsed time, in increasing order. |
| IsnAnalysis.SequenceRatesAreKeptRates | code/os_fing_pkt_analysis_classes.py:68-73 | There is one rate per kept interval, `diff1[i] / (times[i+1] - times[i])`, in order, and never more rates than differences. |
| IsnAnalysis.CounterRate.constructor | code/os_fing_pkt_analysis_classes.py:49-53 | A new object holds `diff1` and the times, with no rates and `isr` unset. |
| IsnAnalysis.CounterRate.CalculateSeqRatesAndIsr | code/os_fing_pkt_analysis_classes.py:62-65 | Runs both steps and returns the fields they leave. |
| IsnAnalysis.CounterRate.CalculateSequenceRates | code/os_fing_pkt_analysis_classes.py:68-73 | Requires one more timestamp than differences. The loop appends exactly `SequenceRates(diff1, times)`. |
| IsnAnalysis.CounterRate.CalculateIsr | code/os_fing_pkt_analysis_classes.py:76-85 | Stores `round(8*log2(mean))` when there are rates with mean at least 1. Otherwise `isr` keeps its old value, because the early `return 0` is never stored. |
| IsnAnalysis.IsrSetExactly | code/os_fing_pkt_analysis_classes.py:77-85 | ISR is set exactly when there is a rate and the mean rate is at least 1. |
| IsnAnalysis.SequencePredictabilityIndex.constructor | code/os_fing_pkt_analysis_classes.py:93-97 | A new object holds the rates and the gcd, with mean and variance unset. |
| IsnAnalysis.SequencePredictabilityIndex.CalculateSp | code/os_fing_pkt_analysis_classes.py:106-118 | The result is `Sp(old rates, gcd, ...)`. With fewer than four rates it fails before touching any field. Otherwise it replaces the stored rates with the rescaled list (a new list, as the source rebinds the field) and stores their mean and population variance. |
| IsnAnalysis.SequencePredictabilityIndex.CalculateMean | code/os_fing_pkt_analysis_classes.py:121-122 | Returns the arithmetic mean of the stored rates. |
| IsnAnalysis.SequencePredictabilityIndex.CalculateVariance | code/os_fing_pkt_analysis_classes.py:124-125 | Given the stored mean, returns the population variance of the rates, which is never negative. |
| IsnAnalysis.DividedBy | code/os_fing_pkt_analysis_classes.py:111 | Every rate is divided by the gcd, with length and order kept. |
| IsnAnalysis.RescaledEntries | code/os_fing_pkt_analysis_classes.py:110-111 | For gcd > 9 each rate becomes `rate / gcd`. Otherwise the rates are untouched. The length is the same either way. |
| IsnAnalysis.SquaredDeviationsNonNegative | code/os_fing_pkt_analysis_classes.py:125 | The sum of squared deviations, and so the variance, is never negative. |
| IsnAnalysis.SumOfScaled | code/os_fing_pkt_analysis_classes.py:111-113 | Dividing every rate by `g` divides their sum by `g`. |
| IsnAnalysis.SquaredDeviationsOfScaled | code/os_fing_pkt_analysis_classes.py:111-125 | Dividing the rates and the mean by `g` divides the squared deviations by `g*g`. |
| IsnAnalysis.RescaledMean | code/os_fing_pkt_analysis_classes.py:110-122 | For gcd > 9, the mean after rescaling is the original mean divided by the gcd. |
| IsnAnalysis.RescaledVariance | code/os_fing_pkt_analysis_classes.py:110-125 | For gcd > 9, the variance after rescaling is the original variance divided by gcd². |
| IsnAnalysis.SpNeedsFourRates | code/os_fing_pkt_analysis_classes.py:107-108 | SP fails exactly when there are fewer than four rates, and then with `TooFewRates`. |
| IsnAnalysis.ConstantRatesStatistics | code/os_fing_pkt_analysis_classes.py:121-125 | Equal rates have that rate as mean and zero variance. |
| IsnAnalysis.SpZeroForSmallVariance | code/os_fing_pkt_analysis_classes.py:115-118 | For a square-root function, SP is 0 when the rescaled variance is at most 1, in particular when all rates are equal. Otherwise it is `round(8*log2(std))`. |
| IsnAnalysis.ScenarioDifferences | code/os_fing_pkt_analysis_classes.py:32-37 | ISNs 1000, 1500, 1300, 1800, 2200, 100 give the differences 500, 200, 500, 400, 2100. |
| IsnAnalysis.ScenarioGcd | code/os_fing_pkt_analysis_classes.py:40-41 | The gcd of those differences is 100. |
| IsnAnalysis.ScenarioRates | code/os_fing_pkt_analysis_classes.py:68-73 | With timestamps 0.5 s apart, every interval is kept, and the rates are the differences times 2. |
| IsnAnalysis.StatisticsExamples | code/os_fing_pkt_analysis_classes.py:110-125 | Rates 1, 2, 4, 8, 16 have mean 6.2 and variance 29.76. Gcd 20 rescales 100..400 to 5..20, and gcd 9 leaves them alone. |
| TcpOptions.Be16RoundTrip | code/os_fingerprint.py:59 | A 16-bit field (MSS) reads back from its two big-endian bytes. |
| TcpOptions.Be32RoundTrip | code/os_fingerprint.py:59 | A 32-bit field (a timestamp) reads back from its four big-endian bytes. |
| TcpOptions.EncodeOption | code/os_fingerprint.py:59-60 | NOP and EOL take one byte. Every other option carries its own total length in its second byte. |
| TcpOptions.EncodeCons | code/os_fingerprint.py:60 | A list encodes as its options' encodings one after another, in list order. |
| TcpOptions.DecodeEncodedOption | code/os_fingerprint.py:59-60 | Decoding an encoded option gives back the option and its length, whatever follows it. |
| TcpOptions.OptionsRoundTrip | code/os_fingerprint.py:59-60 | Decoding an encoded option list gives back the list. |
| OsFingerprint.SequenceGenerationProbes | code/os_fingerprint.py:35-44 | Six SYN probes on one base packet to port 12345, with windows 1, 63, 4, 4, 16, 512. Each probe's option list is the one written, option by option and in order. Each carries the `(0xFFFFFFFF, 0)` timestamp, and each option list is encodable. |
| OsFingerprint.EncodedLength | code/os_fingerprint.py:38-43 | The encoded length of an option list is the sum of its options' lengths. |
| OsFingerprint.IcmpEchoProbes | code/os_fingerprint.py:49-53 | Two type-8 echoes to the target: codes 9/0, ids 12345/12346, sequence numbers 295/296, TOS 0/4, DF on the first only, and zero payloads of 120/150 bytes. |
| OsFingerprint.TcpProbes | code/os_fingerprint.py:58-68 | Six probes: the first three to the open port, the last three to the closed port. Flags are `''`, `SFUP`, `A`, `S`, `A`, `FPU`, windows 128, 256, 1024, 31337, 32768, 65535, and DF is on for probes 1, 3 and 5. All use the common option list, with WScale 10 except the last, which uses WScale 15. |
| OsFingerprint.T2OptionBytes | code/os_fingerprint.py:60 | The WScale-10 option list encodes to the 20 bytes `03030A0102040109080AFFFFFFFF000000000402`. |
| OsFingerprint.T2OptionsFit | code/os_fingerprint.py:59-67 | Both T2–T7 option lists take 20 bytes, within the 40 a TCP header allows. |
| OsFingerprint.UdpProbe | code/os_fingerprint.py:72-76 | One UDP probe to port 12345 with IP id 0x1042 and 300 `'C'` bytes. |
| SimpleCommands.UpperString | code/simple_commands.py:172 | Upper-casing keeps the length and upper-cases each character. |
| SimpleCommands.CleanHex | code/simple_commands.py:169 | Removing the non-hex characters leaves only hex digits and never lengthens the text. |
| SimpleCommands.CleanHexAppend | code/simple_commands.py:169 | Cleaning distributes over concatenation. |
| SimpleCommands.CleanHexOfHex | code/simple_commands.py:169 | Text made only of hex digits is left unchanged. |
| SimpleCommands.CleanHexOfOther | code/simple_commands.py:169 | Text without hex digits is removed entirely. With the two lemmas above, cleaning keeps every hex digit, in order, and nothing else. |
| SimpleCommands.NormalizeMac | code/simple_commands.py:167-172 | Fails exactly when fewer than six hex digits remain. Otherwise the result is three upper-case two-digit groups joined by `-` (8 characters), made of the first six hex digits in order. |
| SimpleCommands.NormalizeMacFirstSix | code/simple_commands.py:171-172 | Two MACs with the same first six hex digits normalise alike. |
| SimpleCommands.NormalizeMacIgnoresTrailing | code/simple_commands.py:169-172 | Whatever follows six hex digits does not change the result. |
| SimpleCommands.NormalizeMacIgnoresCase | code/simple_commands.py:169-172 | The letter case of the input does not change the result. |
| SimpleCommands.NormalMacIsFixed | code/simple_commands.py:169-172 | A MAC already in normal form normalises to itself. |
| SimpleCommands.NormalizeMacIdempotent | code/simple_commands.py:169-172 | Normalising twice gives the same result as normalising once. |
| SimpleCommands.LookupMac | code/simple_commands.py:176-179 | Fails exactly when normalisation fails. Otherwise gives the table entry for the normalised key, or `Not found`. |
| SimpleCommands.LookupListedPrefix | code/simple_commands.py:176-179 | A listed key, written in any letter case, finds its vendor. |
| SimpleCommands.ProcessData | code/simple_commands.py:120-130 | Exactly the labels IP, City, Region, Country, Location, Postal, Timezone, in that order. Each has the reply's field or `None`. |
| SimpleCommands.ProcessDataIgnoresOtherFields | code/simple_commands.py:120-130 | Replies that agree on the seven fields give the same result. |
| SimpleCommands.Dots | code/simple_commands.py:137 | `n * '.'` has `max(n, 0)` dots. |
| SimpleCommands.PaddedLabel | code/simple_commands.py:137 | A label followed by its separator is at least 8 characters long. It starts with the label and is padded with dots. |
| SimpleCommands.PaddedLineLaidOut | code/simple_commands.py:137-138 | A label padded with `(8 - len(key)) * '.'`, then `: ` and a value, starts with the label. Dots fill it to column 8 (no dots for a longer label), `: ` follows, and the value follows that unchanged. |
| SimpleCommands.DisplayLines | code/simple_commands.py:136-138 | One line per field, in the order of the fields. Each line is laid out as above: its own label, dots up to column 8, `: ` and the field's value, or `None` when the field is missing. |
| SimpleCommands.GeoLinesAligned | code/simple_commands.py:120-138 | Every geolocation line has its `:` at column 8. |
| Text.Split | code/port_scanner.py:64 | `str.split` gives at least one piece, and no piece contains the separator. |
| Text.JoinSplit | code/port_scanner.py:64 | Joining the pieces of a split gives back the text. |
| Text.SplitJoin | code/port_scanner.py:64 | Splitting a join of separator-free pieces gives back the pieces. |
| Text.SplitCount | code/port_scanner.py:168-169 | A split gives one more piece than there are separators. |
| Text.ParseInt | code/port_scanner.py:64 | `int()` succeeds exactly on optionally signed, space-surrounded decimal digits. |
| Text.ParseIntOfNatToString | code/port_scanner.py:64 | `int(str(n)) == n`. |
| Text.ParseIntOfNegative | code/port_scanner.py:64 | `int('-' + str(n)) == -n`. |
| Text.ParseReal | code/port_scanner.py:168 | `float()` succeeds exactly on optionally signed decimal text with at most one point. |
| Text.ParseRealOfNatToString | code/port_scanner.py:168 | `float(str(n)) == n`. |
| Text.DecimalValueBounds | code/port_scanner.py:168 | A decimal with a point lies between its integer part and the next integer. |
| PortScanner.ParseAll | code/port_scanner.py:64 | The list comprehension succeeds exactly when every field converts. It then gives the converted fields in order. Otherwise it fails with the error of the first field that does not convert. |
| PortScanner.SampleIsPermutation | code/port_scanner.py:68-69 | `random.sample(ports, len(ports))` returns the same ports, as a multiset. |
| PortScanner.ParsePrintedPorts | code/port_scanner.py:64 | Converting the printed ports gives back the ports. |
| PortScanner.PortListOfPrinted | code/port_scanner.py:63-64 | A comma-separated port list names exactly those ports, in the order written, whatever the table holds. |
| PortScanner.PortScanner.constructor | code/port_scanner.py:19-28 | A new scanner has no ports chosen and no responses. |
| PortScanner.PortScanner.PreparePorts | code/port_scanner.py:62-69 | Stores the named ports, or the table's ports when none are named, shuffled when `-r` is set. A field that does not convert fails and stores nothing. |
| PortScanner.PortScanner.PerformNormalScan | code/port_scanner.py:79-82 | Stores the ports `-p` names, or the whole table, shuffled under `-r`. It then stores the exchanges, unless a `-d` value does not convert: that fails with `DelayError` after the ports are stored, and leaves the responses unchanged. When a field of `-p` does not convert, it returns that error and changes nothing. |
| PortScanner.PortScanner.PerformDecoyScan | code/port_scanner.py:85-89 | Stores the ports `-D` names, shuffled under `-r`. With at least one port it probes the first, stores the exchanges and turns `show` on. An empty list fails with `NoPorts`. A field that does not convert fails with its error and changes nothing. |
| PortScanner.PortScanner.GetResultByTransmissionMethod | code/port_scanner.py:72-89 | With `-D` given, it takes the ports from `-D` and has the decoy scan's outcome: `show` forced on when a port is probed, and each error leaving the state as described above. Without `-D` it takes the ports from `-p` and has the normal scan's outcome, including the `-d` error, with `show` unchanged. |
| PortScanner.PortScanner.ProcessResponses | code/port_scanner.py:92-97 | The loop prints exactly `Report(responses, show, names)`, stopping at the first reply without a TCP layer. With no responses it fails. |
| PortScanner.ClassifyCases | code/port_scanner.py:101-108 | `SA` and only `SA` is Opened, no reply and only no reply is Filtered, and any flags other than `SA`, `S`, `RA`, `F`, `R` are Unknown Status. |
| PortScanner.Report | code/port_scanner.py:92-110 | Never more lines than exchanges. |
| PortScanner.ReportShowsOnlyOpenUnlessShow | code/port_scanner.py:96-109 | Without `show` every printed line is Opened. Every line carries the table's description or `Generic Port`. |
| PortScanner.ReportWithoutShow | code/port_scanner.py:93-110 | Without `show`, and with TCP layers everywhere, there is exactly one Opened line per SYN-ACK reply, in order, with the table's description, and no other line. |
| PortScanner.ReportWithShow | code/port_scanner.py:93-110 | With `show` and TCP layers everywhere, there is one line per exchange, in order, with its port and classification. |
| PortScanner.ReportStopsAtError | code/port_scanner.py:93-97 | Once a reply without TCP raised, later exchanges change nothing. |
| PortScanner.UniformBetween | code/port_scanner.py:169 | `random.uniform(a, b)` lies between `a` and `b`, in either order. |
| PortScanner.CreateDelayTimeList | code/port_scanner.py:167-170 | Succeeds exactly when every `-`-separated field is a float. It then gives one delay per packet. Otherwise it fails with `InvalidDelay` of the first refused field's error. |
| PortScanner.DelayOfSingleValue | code/port_scanner.py:170 | A single value is every packet's delay. |
| PortScanner.DelayOfRange | code/port_scanner.py:168-169 | `a-b` with `a <= b` gives delays that all lie in `[a, b]`. |
| PortScanner.DelayTimeList | code/port_scanner.py:160-164 | A bare `-d` gives one delay in `[1, 3]` per packet. A value gives the list above. |
| PortScanner.DelayError | code/port_scanner.py:136-138 | The only exception a delayed scan raises before sending is an `InvalidDelay`. An empty `-d` value counts as no delay, as the truth test does. |
| PortScanner.DelayErrorOfDelayTimeList | code/port_scanner.py:146-170 | For every `-d` flag that sends with a delay, the scan's error is exactly the failure of `_get_delay_time_list`, whatever the number of packets and the draws. |
| PortScanner.RandInt | code/port_scanner.py:217 | `randint(lo, hi)` fails exactly on an empty range and otherwise lies in `[lo, hi]`. |
| PortScanner.InsertedProperties | code/port_scanner.py:218 | `insert` adds one element at the index and keeps the others in order. |
| PortScanner.Decoy.constructor | code/port_scanner.py:184-191 | A decoy scan holds the target, the port, its own address and the drawn decoys. |
| PortScanner.Decoy.AddRealPacket | code/port_scanner.py:215-218 | The own address is inserted once, at an index in `[n//2, n-1]`. With no decoys `randint` raises and the list is unchanged. |

## Left out

- Packet transmission and capture (`sr`, `sr1`, `send`) and the threaded sending of delayed and decoy scans are not modelled (I/O and concurrency). The exchanges a scan produced are a parameter of `PerformNormalScan` and `PerformDecoyScan`.
- Scapy packets are plain datatypes. Reply flags are compared as their canonical strings (`"SA"`), as scapy's flag values compare with strings.
- Floating point is modelled as `real`. `math.log2`, `math.sqrt` and `round` are function parameters, so their values, including `int(round(...))`, are not computed.
- IsnAnalysis.CounterRate.CalculateSequenceRates: requires at least one more timestamp than there are differences, and so does `CalculateSeqRatesAndIsr`. With fewer timestamps the source raises IndexError at `self._times[i + 1]`, after it has appended some rates. That partial state is not modelled.
- IsnAnalysis.SequencePredictabilityIndex.CalculateSp: the standard deviation is `sqrt` applied inline, not a separate `_calculate_standard_deviation` method, and it is not stored.
- Randomness is a parameter. `random.sample` is modelled by the pool algorithm it uses when the sample is the whole list, and `randint`/`uniform` by their formulas over a given draw.
- Text.ParseInt: does not accept the other forms Python's `int()` and `float()` accept (underscores, exponents, `inf`/`nan`, non-ASCII spaces and digits), because ports and delays are written in plain decimal.
- SimpleCommands.UpperString: only ASCII letters are upper-cased, because a cleaned MAC holds only hex digits.
- The JSON reply of the geolocation service is a map from strings to strings. The HTTP fetch, interface listing and coloured printing are not part of this model.
- The `network` module helpers are not part of this model. The base-packet constructors are plain values, and the port table is an input of the `PortScanner` constructor.
- `Decoy._generate_random_ip_in_subnet` is not modelled (`ipaddress` and randomness). The decoy list is an input of the `Decoy` constructor.
- `code/arg_parser.py`, `code/main.py` and the legacy root-level `port_scanner.py` are not part of this model. The argument values are constructor parameters.
- `OS_Fingerprint._execute` and `_get_argument` are argument handling and are not modelled. The open and closed ports of `TcpProbes` are required parameters instead of the `int` defaults the signature gives.
- OsFingerprint.SequenceGenerationProbes: proves every option list encodable, but does not prove each list fits the 40-byte TCP header.
- The response of a decoy scan may be unset because of the thread race in `_send_decoy_and_real_packets`. The model takes the exchanges as given.
- Output formatting is not modelled: colours, `{status:>17}` and `{port:>5}`. A printed line is modelled as its status, port and description.

## Notes on the source

- `reduce(math.gcd, [])` raises `TypeError` when there are fewer than two ISNs. The model gives `Failure(NoDifferences)` there and leaves the gcd field unset.
- `_calculate_isr` returns 0 on its early exits but never stores it, so `isr` stays unset (`None`). The model keeps this behaviour.
- In the six-ISN example `[1000, 1500, 1300, 1800, 2200, 100]`, the last step is not a wrap-around: `|100 - 2200| = 2100` is far below `2^32 - 2100`. `ScenarioDifferences` states the difference the code computes.
