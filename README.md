# libksane option layer and scan engine, modelled in Dafny

This project models two parts of libksane, the KDE library that drives SANE scanners.

- **The option layer.** The `KSaneOption` base class and three variants:
  - `ListOption`: a word list or string list shown as a combo box.
  - `KSaneDoubleOption`: a single fixed-point value.
  - `StringOption`: a free text value.

  The model covers several behaviours:
  - How an option descriptor is classified into a control type, a visibility state and a polling need.
  - How values are encoded into and decoded from the 4-byte SANE word, in both host byte orders and in 16.16 fixed point.
  - How `writeData` talks to the device and the reload cascade it raises.
  - The store/restore slot.
  - Each variant's `readValue`, `readOption`, value getters and setters.
- **The scan engine.** `KSaneScanThread` runs `sane_start` and `sane_get_parameters`. It then reads chunks with `sane_read` until the frame ends. A three-pass scan delivers a red, a green and a blue plane frame, and the engine assembles them into one interleaved image. It can also invert colours.

The device behind `sane_control_option`, `sane_start`, `sane_get_parameters`, `sane_read` and `sane_cancel` is a scripted oracle (`Device.OptionDevice` and `ScanDevice.ScanHandle`):

- Each call consumes the next scripted reply, and every write is logged.
- An exhausted script answers `SANE_STATUS_IO_ERROR`.
- A cancellation from the GUI thread is an input: it is injected at fixed points of `run`.

The project's modules:

- `Sane`: the protocol types and the fixed-point conversions.
- `WordCodec`: the `toSANE_Word` and `fromSANE_Word` conversions.
- `Classify`: `optionType`, `state` and `needsPolling`.
- `Values`: Qt variants and strings, as used here.
- `Device`: the option-side oracle.
- `ListEntries`: word-list and string-list searches.
- `Options`: the option class.
- `ScanLayout`: the pure rules for where bytes go and what progress is.
- `ScanDevice`: the scan-side oracle.
- `ScanThread`: the thread class.

The state-changing parts are Dafny classes with `modifies` frames:

- `Options.KSaneOption`.
- `ScanThread.KSaneScanThread`, which keeps its chunk buffer as an `array`.

Each method is proved against a pure step function (`Options.ReadStep`, `Options.WriteOutcome`, `ScanLayout.Placement`, `ScanLayout.PlaceAll`). The properties that matter are proved about those functions as lemmas.

Two facts about the fixed-point values:

- `MIN_FIXED_STEP` is 0.0001. It is the fallback step and also the floor of `m_minChange`.
- `SANE_FIX` does not saturate. Outside the word range the model wraps, and the round trip is proved only inside that range.

## Model

| member | source | states |
|---|---|---|
| Sane.Truncate | src/options/ksanedoubleoption.cpp:75-76 | the C float-to-integer conversion inside SANE_FIX truncates toward zero and keeps the sign |
| Sane.Wrap | src/options/ksanedoubleoption.cpp:75-76 | narrowing to a SANE_Word leaves every in-range value unchanged |
| Sane.FixUnfix | src/options/ksanedoubleoption.cpp:58 | every word read from the device and converted with SANE_UNFIX comes back to the same word under SANE_FIX |
| Sane.UnfixFixClose | src/options/ksanedoubleoption.cpp:75-76 | inside the 16.16 range, SANE_FIX followed by SANE_UNFIX moves a value by less than 1/65536 |
| WordCodec.FromSaneWord | src/options/ksaneoption.cpp:167-181 | fills exactly the first four bytes of the buffer with the word's encoding in host order and leaves the rest of the buffer alone |
| WordCodec.DecodeEncode | src/options/ksaneoption.cpp:149-181 | toSANE_Word of what fromSANE_Word wrote gives back the word, in both host byte orders |
| WordCodec.EncodeDecode | src/options/ksaneoption.cpp:149-181 | fromSANE_Word of what toSANE_Word read gives back the four bytes |
| WordCodec.HostOrders | src/options/ksaneoption.cpp:149-181 | the two host orders write byte-reversed buffers for the same word |
| Classify.OptionType | src/options/ksaneoption.cpp:261-339 | the full decision table: list constraints give a combo, BOOL a checkbox, a one-word INT or FIXED a slider, BUTTON a button, an unconstrained STRING an entry, a multi-word INT range with a gamma-table name a gamma control, and anything else a detection failure (each case as an if-and-only-if) |
| Classify.BaseState | src/options/ksaneoption.cpp:77-91 | Hidden exactly when the descriptor is missing, not soft-detectable, inactive or of size 0 (buttons excepted); Disabled exactly when otherwise not soft-selectable; Shown implies the three capability bits |
| Classify.NeedsPolling | src/options/ksaneoption.cpp:93-105 | polling is needed exactly when the option is soft-detectable and not soft-selectable |
| Classify.PolledNeverShown | src/options/ksaneoption.cpp:77-105 | a polled option is never editable, and the Disabled options are exactly the visible polled ones |
| Classify.ZeroSizeHidden | src/options/ksaneoption.cpp:83-86 | an option of size 0 stays visible only if it is a detectable, active button |
| Values.VariantToDouble | src/options/listoption.cpp:134 | a number-like variant gives a number and an empty variant gives none |
| Values.VariantText | src/options/stringoption.cpp:28 | a string variant gives its text unchanged |
| Values.CString | src/options/stringoption.cpp:53 | the text ends at the first NUL byte or at the end of the buffer, and contains no NUL |
| Values.Latin1Bytes | src/options/stringoption.cpp:32 | one byte per character, followed by a NUL terminator |
| Values.CStringLatin1 | src/options/stringoption.cpp:32-53 | a NUL-free Latin-1 text read back as a C string from its Latin-1 bytes is the same text |
| Device.OptionDevice.GetValue | src/options/ksaneoption.cpp:230 | a GET_VALUE call returns the next scripted reply, sized to the buffer, and consumes it |
| Device.OptionDevice.SetValue | src/options/ksaneoption.cpp:124 | a SET_VALUE call returns the next scripted reply and logs the written bytes |
| ListEntries.ClosestEntry | src/options/listoption.cpp:186-210 | returns the first index whose entry is closest to the requested number, together with that distance |
| ListEntries.ClosestUnique | src/options/listoption.cpp:186-210 | the first closest entry is unique, so ties resolve to the lower index |
| ListEntries.ClosestExamples | src/options/listoption.cpp:186-210 | on the list 10, 20, 30: 21 and 24 choose 20 (21 at distance exactly 1.0, so not a success), and 25, halfway between 20 and 30, chooses the earlier 20 |
| ListEntries.NullIndex | src/options/listoption.cpp:304-308 | the position of the NULL terminator of a string list: every earlier entry is a string |
| ListEntries.CountStrings | src/options/listoption.cpp:304-308 | counts the strings before the NULL terminator |
| ListEntries.EntryCount | src/options/listoption.cpp:293-314 | the entry count is the word list's first word, the string count of a string list, or 0 |
| ListEntries.MinimumValue | src/options/listoption.cpp:140-168 | returns the least entry of an INT or FIXED list (a number present in the list and no greater than any entry), and an empty value for a missing, hidden or non-numeric option |
| ListEntries.EntryList | src/options/listoption.cpp:66-126 | lists exactly EntryCount entries, in list order: the words of an INT list, their UNFIX for a FIXED list, and each string of a string list passed through the translation (sane_i18n for valueList, none for internalValueList) |
| ListEntries.FirstMatchFrom | src/options/listoption.cpp:266-282 | the first string-list entry at or after i whose text or translation equals the request, or none when no entry matches |
| ListEntries.MatchEntry | src/options/listoption.cpp:266-282 | the search loop finds exactly the first matching entry |
| Options.ReadEffect | src/options/listoption.cpp:23-57 | a failed read changes nothing. A good read installs and announces the value: the UNFIX of the word for a double (ksanedoubleoption.cpp:58-60), the C string for a string (stringoption.cpp:53-55), the decoded value for a list, which is announced exactly when it differs from the held one. The entry count and the minimum change are kept |
| Options.ReadStep | src/options/ksaneoption.cpp:147 | the base option and any hidden option do not touch the device; otherwise one GET reply is consumed and at most one signal is appended |
| Options.ReloadSignals | src/options/ksaneoption.cpp:136-144 | an option reload is asked for exactly when RELOAD_OPTIONS is set, a value reload exactly when only RELOAD_PARAMS is set, never both |
| Options.WriteStep | src/options/ksaneoption.cpp:124-144 | writing never changes the variant kind, the entry count or the minimum change |
| Options.InexactWriteRereads | src/options/ksaneoption.cpp:131-142 | an accepted inexact write to an option with a widget is a re-read followed by the reload cascade |
| Options.WriteOutcome | src/options/ksaneoption.cpp:115-145 | a Disabled option is left exactly as it was |
| Options.CascadeSignals | src/options/ksaneoption.cpp:131-144 | an accepted write without a widget leaves the value and replies alone and appends only the reload signal the info bits ask for |
| Options.FailedWriteRereads | src/options/ksaneoption.cpp:124-130 | a refused write is exactly a re-read of the value |
| Options.ListReadEmitsOnChange | src/options/listoption.cpp:53-56 | a list re-read emits a signal exactly when the value changed, and the signal carries the new value |
| Options.MinValue | src/options/ksanedoubleoption.cpp:83-92 | the range minimum, or FIXED_MIN when there is no range |
| Options.MaxValue | src/options/ksanedoubleoption.cpp:94-103 | the range maximum, or FIXED_MAX when there is no range |
| Options.StepValue | src/options/ksanedoubleoption.cpp:105-114 | the range quantum, or MIN_FIXED_STEP when there is no range |
| Options.MinChange | src/options/ksanedoubleoption.cpp:29-41 | the minimum change is the step value, raised to MIN_FIXED_STEP when smaller |
| Options.FallbackLimitsRepresentable | src/options/ksanedoubleoption.cpp:17-18 | FIXED_MIN and FIXED_MAX are exact fixed-point values that survive SANE_FIX and SANE_UNFIX |
| Options.Left | src/options/stringoption.cpp:30 | QStringView::left keeps the first n characters, and the whole text when n is negative or too large |
| Options.LeftChanges | src/options/stringoption.cpp:30-31 | the cut text differs from the input exactly when the input is longer than the limit |
| Options.ClipChanges | src/options/stringoption.cpp:30-31 | the clipped text differs from the input exactly when the input does not fit the buffer together with its NUL |
| Options.FixedBytes | src/options/ksanedoubleoption.cpp:75-76 | a fixed-point write is four bytes |
| Options.FixedBytesClose | src/options/ksanedoubleoption.cpp:58-76 | a number inside the fixed-point range is read back from its written word within 1/65536 |
| Options.TextPayload | src/options/listoption.cpp:230-291 | for an INT list the parsed integer's word, for a FIXED list the parsed number in fixed point, for a string list the Latin-1 bytes of the first matching entry; nothing when parsing or matching fails or the type has no list form |
| Options.Clip | src/options/stringoption.cpp:30 | the kept text is a prefix of the input, shorter than the buffer, and equal to the input when it fits |
| Options.StringBytes | src/options/stringoption.cpp:30-32 | the written buffer is NUL-terminated and no longer than the option's size |
| Options.StringBytesRead | src/options/stringoption.cpp:30-53 | reading the written buffer back as a C string gives the clipped text |
| Options.StringWriteAsWritten | src/options/stringoption.cpp:28-34 | as written, a write happens exactly when the text is longer than the size, and it writes the first `size` characters |
| Options.StringWriteAsWrittenFails | src/options/stringoption.cpp:28-34 | "gray" with size 32 is never written; "lineart" with size 4 produces 5 bytes whose NUL lies past the 4-byte buffer |
| Options.StoreAsWritten | src/options/ksaneoption.cpp:225-235 | as written, an allowed store fills the slot with the GET buffer whatever the status |
| Options.StoreAsWrittenKeepsFailedRead | src/options/ksaneoption.cpp:225-235 | after an I/O error the slot is still filled |
| Options.KSaneOption.constructor | src/options/ksaneoption.cpp:24-30 | the descriptor is read, with no widget, no saved data and no signals |
| Options.KSaneOption.State | src/options/listoption.cpp:316-323 | a list with at most one entry is Hidden; otherwise the base state; a base-Hidden option is always Hidden |
| Options.KSaneOption.ReadOption | src/options/ksaneoption.cpp:57-61 | refreshes the descriptor, then the double variant's minimum change (ksanedoubleoption.cpp:29-41) and the list's entry count (listoption.cpp:59-64) |
| Options.KSaneOption.CountEntries | src/options/listoption.cpp:293-314 | the entry count becomes EntryCount of the descriptor |
| Options.KSaneOption.ReadValue | src/options/ksanedoubleoption.cpp:43-61 | the new option state is ReadStep of the old one (also listoption.cpp:23-57 and stringoption.cpp:38-56) |
| Options.KSaneOption.WriteData | src/options/ksaneoption.cpp:115-145 | a Disabled option fails without a device call; otherwise exactly one write, success exactly when the device answers GOOD, and the new state is WriteOutcome |
| Options.KSaneOption.StoreCurrentData | src/options/ksaneoption.cpp:212-236 | refuses without a GUI or while Hidden and keeps the slot; otherwise reads once, succeeds exactly when the read does, and keeps the data only then (corrected; see Findings) |
| Options.KSaneOption.WriteAndRead | src/options/ksaneoption.cpp:256-257 | a write followed by a re-read: the new state is ReadStep after WriteOutcome |
| Options.KSaneOption.RestoreSavedData | src/options/ksaneoption.cpp:238-259 | succeeds exactly when data is saved, a GUI exists and the option is neither Hidden nor Disabled; otherwise no device call; on success writes the saved bytes and re-reads |
| Options.KSaneOption.ListValue | src/options/listoption.cpp:170-176 | empty while Hidden, otherwise the held value |
| Options.KSaneOption.ListValueAsString | src/options/listoption.cpp:222-228 | empty while Hidden, otherwise the held value as text |
| Options.KSaneOption.SetListNumber | src/options/listoption.cpp:178-220 | writes the first closest entry of a numeric list and re-reads; succeeds exactly when that entry lies within 1.0 of the request; a string list fails without a write |
| Options.KSaneOption.SetListText | src/options/listoption.cpp:230-291 | succeeds exactly when the option is visible and the text gives a payload; then writes that payload and re-reads, otherwise changes nothing |
| Options.KSaneOption.SetListVariant | src/options/listoption.cpp:128-138 | a string goes to the text setter with its exact success condition; a number chooses a closest entry and succeeds exactly when it lies within 1.0 |
| Options.KSaneOption.DoubleValue | src/options/ksanedoubleoption.cpp:116-122 | empty while Hidden, otherwise the held number |
| Options.KSaneOption.DoubleValueAsString | src/options/ksanedoubleoption.cpp:124-130 | empty while Hidden, otherwise the number with six decimals |
| Options.KSaneOption.SetDouble | src/options/ksanedoubleoption.cpp:63-81 | fails while Hidden, otherwise succeeds exactly when the variant converts; only a move of at least the minimum change is stored, written in fixed point and announced with the value held after the write; a smaller move changes nothing |
| Options.KSaneOption.StringValue | src/options/stringoption.cpp:58-61 | the held string, whatever the state |
| Options.KSaneOption.ValueSize | src/options/stringoption.cpp:63-66 | the descriptor's buffer size, never negative |
| Options.KSaneOption.StringValueAsString | src/options/stringoption.cpp:68-74 | empty while Hidden, otherwise the held string |
| Options.KSaneOption.SetString | src/options/stringoption.cpp:23-36 | fails exactly while Hidden, and then changes nothing. Otherwise the clipped text is kept and written NUL-terminated within the buffer, and it is announced exactly when clipping changed the text, as line 33 does (corrected; see Findings) |
| ScanLayout.Channel | src/ksanescanthread.cpp:227-273 | red, green and blue plane frames go to channels 0, 1 and 2 |
| ScanLayout.PlaneIndexInverse | src/ksanescanthread.cpp:186-193 | the interleaving macros can be undone: the plane and the byte number are recovered from the image index |
| ScanLayout.PlaneIndexOnto | src/ksanescanthread.cpp:186-193 | every image index is the interleaved position of some plane byte |
| ScanLayout.PlaneIndexInjective | src/ksanescanthread.cpp:186-193 | two different plane bytes never land on the same image index |
| ScanLayout.PlaneIndexMonotone | src/ksanescanthread.cpp:186-193 | later bytes of a plane land at later image indices |
| ScanLayout.PlaneIndexBound | src/ksanescanthread.cpp:186-193 | the first n bytes of each plane stay inside the first 3n image bytes |
| ScanLayout.SetAt | src/ksanescanthread.cpp:230 | writing one byte past the end grows the image, and only that byte changes |
| ScanLayout.PlaceAllLength | src/ksanescanthread.cpp:227-273 | the image grows exactly to hold the last byte written, and not at all when it is already long enough |
| ScanLayout.PlaceAllWrites | src/ksanescanthread.cpp:227-273 | every placed byte is found at its interleaved position |
| ScanLayout.PlaceAllKeeps | src/ksanescanthread.cpp:227-273 | every image byte that no placed byte hits is unchanged |
| ScanLayout.ThreePlanes | src/ksanescanthread.cpp:186-273 | placing a red, a green and a blue frame of the same size into an empty image gives an image of three times that size |
| ScanLayout.ThreePlanesLength | src/ksanescanthread.cpp:186-273 | the length of the assembled image is three times the plane size |
| ScanLayout.ThreePlanesAt | src/ksanescanthread.cpp:186-273 | every byte of every plane is at its interleaved position in the assembled image |
| ScanLayout.RedSurvives | src/ksanescanthread.cpp:186-273 | the green and blue passes do not overwrite red bytes |
| ScanLayout.GreenSurvives | src/ksanescanthread.cpp:186-273 | the blue pass does not overwrite green bytes |
| ScanLayout.OtherPlaneKeeps | src/ksanescanthread.cpp:186-273 | a plane pass leaves the bytes of the other planes unchanged |
| ScanLayout.Sample16 | src/ksanescanthread.cpp:198-203 | a 16-bit sample is read in host byte order and lies in [0, 65535] |
| ScanLayout.Inverted | src/ksanescanthread.cpp:197-213 | inversion complements every byte of whole 16-bit samples at depth 16 and every byte at depths 8 and 1; all other bytes and other depths are unchanged |
| ScanLayout.Complement16 | src/ksanescanthread.cpp:198-203 | complementing both bytes of a sample is 0xFFFF minus the sample, in either byte order |
| ScanLayout.BitNotComplement | src/ksanescanthread.cpp:208-212 | the bitwise NOT of a byte equals 255 minus the byte |
| ScanLayout.InvertedTwice | src/ksanescanthread.cpp:197-213 | inverting twice restores the data |
| ScanLayout.Placement | src/ksanescanthread.cpp:214-280 | GRAY and multi-bit RGB data are appended; plane frames of depth 8 or 16 are scattered to their interleaved positions; 1-bit RGB, unknown formats and other plane depths fail and leave the image alone; the frame byte count advances by the data length exactly on success |
| ScanLayout.DataSize | src/ksanescanthread.cpp:87-95 | a plane scan expects three frames' worth of bytes, any other scan one frame |
| ScanLayout.PlanesFillDataSize | src/ksanescanthread.cpp:87-95 | three full plane frames assemble to exactly the expected data size |
| ScanLayout.TruncDiv | src/ksanescanthread.cpp:123 | C division truncates toward zero: for a positive divisor the quotient of a non-negative dividend is the floor, and a negative dividend gives minus the quotient of its magnitude; the quotient is non-negative when the signs agree |
| ScanLayout.TruncDivRemainder | src/ksanescanthread.cpp:123 | for every sign combination the remainder a - q*b has the dividend's sign and is smaller than the divisor in magnitude, the C definition of integer division |
| ScanLayout.Progress | src/ksanescanthread.cpp:110-124 | the percentage is 100 times the bytes read, divided by the expected size, truncated |
| ScanLayout.ProgressRange | src/ksanescanthread.cpp:110-124 | progress lies between 0 and 100 while no more than the expected bytes were read |
| ScanLayout.PlaneProgress | src/ksanescanthread.cpp:110-124 | throughout a three-pass scan progress stays within [0, 100], and it is 100 once the third frame is complete |
| ScanLayout.CorrectedParams | src/ksanescanthread.cpp:144-148 | the line-art correction changes at most bytes_per_line, and changes nothing when the frame is not 1-bit, has no lines, or the bytes read do not cover every pixel |
| ScanLayout.CorrectedFrameFits | src/ksanescanthread.cpp:144-148 | after the correction the frame never claims more bytes than were read, and falls short of them by less than one byte per line |
| ScanDevice.ScanHandle.Start | src/ksanescanthread.cpp:63 | sane_start returns the next scripted status and consumes it |
| ScanDevice.ScanHandle.GetParameters | src/ksanescanthread.cpp:79 | sane_get_parameters returns the next scripted reply and keeps the current parameters on an exhausted script |
| ScanDevice.ScanHandle.Read | src/ksanescanthread.cpp:129 | sane_read delivers at most the buffer's size, copies exactly the delivered bytes into the buffer and leaves the rest alone |
| ScanDevice.ScanHandle.Cancel | src/ksanescanthread.cpp:179 | each sane_cancel call is counted exactly once |
| ScanThread.Prepared | src/ksanescanthread.cpp:197-213 | the chunk is inverted only when inversion is on, and keeps its length |
| ScanThread.KSaneScanThread.constructor | src/ksanescanthread.cpp:17-29 | the engine starts empty: no frame, no bytes, status GOOD, READ_READY, not started, no inversion |
| ScanThread.KSaneScanThread.SetImageInverted | src/ksanescanthread.cpp:31-34 | the inversion flag takes the given value |
| ScanThread.KSaneScanThread.CancelScan | src/ksanescanthread.cpp:46-49 | only the read status changes, to READ_CANCEL |
| ScanThread.KSaneScanThread.ScanProgress | src/ksanescanthread.cpp:110-124 | the value is Progress of the thread's counters: 0 before the size is known, otherwise 100 times the bytes read (earlier plane frames counted in full) divided by the expected size, and within [0, 100] while the bytes read do not exceed it |
| ScanThread.KSaneScanThread.InvertChunk | src/ksanescanthread.cpp:197-213 | the first n chunk bytes become Inverted of what they were; the rest of the chunk is untouched |
| ScanThread.KSaneScanThread.ComplementSamples | src/ksanescanthread.cpp:198-203 | every byte of the first whole samples becomes 255 minus itself; the others stay |
| ScanThread.KSaneScanThread.ComplementBytes | src/ksanescanthread.cpp:204-207 | each of the first n bytes becomes 255 minus itself; the others stay |
| ScanThread.KSaneScanThread.NotBytes | src/ksanescanthread.cpp:208-212 | each of the first n bytes becomes its bitwise NOT; the others stay |
| ScanThread.KSaneScanThread.ScatterPlane | src/ksanescanthread.cpp:227-273 | the image becomes PlaceAll of the chunk at the frame's current byte count, and that count advances by n |
| ScanThread.KSaneScanThread.CopyToScanData | src/ksanescanthread.cpp:195-281 | the chunk is prepared (inverted when asked) and placed by Placement; an unplaceable format sets READ_ERROR |
| ScanThread.KSaneScanThread.ReadData | src/ksanescanthread.cpp:126-184 | one read consumed; GOOD places the chunk; EOF on a short frame places what fits, corrects 1-bit parameters and ends READY; EOF on the last frame ends READY; EOF before another frame restarts and fetches new parameters (failures end in READ_ERROR, a parameter failure also cancels); any other status ends in READ_ERROR and cancels; readData never sets READ_CANCEL itself; `saneStatus` records the last call's status on every path |
| ScanThread.KSaneScanThread.FinishShortFrame | src/ksanescanthread.cpp:137-151 | a frame that ended early gets the chunk placed only when it fits, the line-art correction of its parameters, and READ_READY |
| ScanThread.KSaneScanThread.StartNextFrame | src/ksanescanthread.cpp:156-175 | a failed sane_start ends in READ_ERROR without fetching parameters; a failed parameter fetch ends in READ_ERROR and cancels; otherwise the new parameters are taken, the frame is counted and the chunk is placed at the new frame's start |
| ScanThread.KSaneScanThread.Setup | src/ksanescanthread.cpp:56-104 | a cancel during sane_start ends the run cancelled; a start or parameter failure ends it in READ_ERROR; otherwise the parameters, frame size and expected size are set, the image is cleared and the loop is entered ON_GOING |
| ScanThread.KSaneScanThread.ReadLoop | src/ksanescanthread.cpp:104-107 | the loop ends when the status is no longer ON_GOING; it ends cancelled exactly when a cancel was injected at the last step and never earlier; every step consumes one read reply |
| ScanThread.KSaneScanThread.Run | src/ksanescanthread.cpp:56-108 | the whole run: the setup outcomes above, then the read loop's termination and cancellation behaviour, with sane_start always marked done |

## Left out

- Widgets and the GUI: `createWidget`, `updateVisibility`, the labels, the unit strings and the `m_widget` pointer are left out. The model only records whether a widget exists (`hasWidget`) and whether a GUI is wanted (`hasGui`).
- The generic getters and setters of the KSaneOption base that only return false or an empty value (ksaneoption.cpp:183-206) are left out. They carry no behaviour.
- `beginOptionReload` and `endOptionReload` are left out, along with the rest of the widget layer in ksanewidget_p.cpp. The layer that owns the options is not part of this model.
- The model assumes that a refreshed descriptor keeps the option's kind: a list stays a list and a FIXED value stays FIXED. This is the class invariant `Valid`. The library builds each variant for one kind of descriptor.
- Threads and locking are left out. `cancelScan` from the GUI thread is injected at fixed points of `run`: during `sane_start`, after the parameter fetch, and before each loop test.
- A cancel after the parameter fetch is overwritten by the loop's own READ_ON_GOING, as in the code (ksanescanthread.cpp:104). The model keeps that behaviour rather than a cancel that survives.
- The image buffer is owned by the thread object as a sequence. In the code it is a `QByteArray` shared through the `m_data` pointer, and the model does not capture that aliasing. `reserve` has no observable effect and is left out.
- Bytes that `QByteArray` adds when a plane write grows it are modelled as zeros. Qt leaves them uninitialised.
- IEEE floating point is modelled by exact real numbers. This covers the double values, the distance in the closest-entry search and the float division in `scanProgress`. Only the final truncation to `int` is modelled.
- Qt's conversions and formatting are parameters of the environment `Env`:
  - `QVariant::toInt` and `toDouble`;
  - `QString::number` for plain and six-decimal output;
  - `sane_i18n` and the translation of list entries.
- `QString::fromUtf8` is modelled as one character per byte. No UTF-8 multi-byte decoding is modelled.
- Integer overflow of `lines * bytes_per_line`, `m_frameSize * 3` and `m_frameRead` is not modelled. These are unbounded integers here.
- A failed `sane_get_parameters` leaves the parameters as they were. The SANE standard does not say what the call writes on failure.
- The chunk size (`SCAN_READ_CHUNK_SIZE`) is a constructor parameter rather than a constant.
- The `qCDebug` logging is left out.
- `KSaneScanThread::saneStatus`, `frameStatus` and `saneParameters` are plain field reads and are left out.
- `SaneStartDone` is a plain field read and carries no contract.
- Options.KSaneOption.SetListNumber: requires that a numeric word list has at least one entry. The code reads the first entry unconditionally, and the SANE standard gives word-list options at least one value.
- Options.KSaneOption.SetListVariant: requires the same non-empty list for numbers. For a number, it states the chosen entry and the success condition, but not the written bytes and the new state. SetListNumber states those.
- ListEntries.MinimumValue: requires the same non-empty list as SetListNumber.
- ScanThread.KSaneScanThread.Run: states the setup outcomes, loop termination, cancellation and reply consumption. It does not state the final image. ReadData's contract gives the image step by step, and the ThreePlanes lemmas give the assembled result.

## Findings

| source | as written | input that shows it | evidently intended | confidence | as-written member | corrected member |
|---|---|---|---|---|---|---|
| src/options/stringoption.cpp:31-34 | The text is written only when `left(size)` changed it. A text that fits is never written, `m_string` is not updated, and the call still returns true. | `setValue("gray")` on a string option of size 32 | On every visible call, write the clipped text and keep it as the held string, as KSaneDoubleOption::setValue keeps `m_value`; announce the clipped text when clipping changed it, as line 33 does | medium, not executed | Options.StringWriteAsWritten, Options.StringWriteAsWrittenFails | Options.KSaneOption.SetString |
| src/options/stringoption.cpp:30 | `left(m_optDesc->size)` keeps `size` characters. The NUL terminator of `toLatin1().data()` is then byte `size + 1`, past the option's buffer of `size` bytes. | `setValue("lineart")` on a string option of size 4 writes 5 bytes | Keep at most `size - 1` characters, so the terminated string fits the buffer | medium, not executed | Options.StringWriteAsWritten, Options.StringWriteAsWrittenFails | Options.StringBytes, Options.StringBytesRead |
| src/options/ksaneoption.cpp:225-234 | A failed GET_VALUE returns false but leaves the freshly `malloc`ed `m_data` in place. `restoreSavedData` then writes those unread bytes to the device. | `storeCurrentData()` when the device answers `SANE_STATUS_IO_ERROR` | After a failed read, leave no saved data | medium, not executed | Options.StoreAsWritten, Options.StoreAsWrittenKeepsFailedRead | Options.KSaneOption.StoreCurrentData |
