# The metering NSLP, modelled in Dafny

The repository implements the NSIS signalling protocol for metering configuration: an initiator
asks the nodes of a path to meter traffic, and keeps their state alive with refreshes. This project
models its three cores and proves what they are for.

1. **The IPFIX codec** (`Ipfix*.dfy`, `Bytes.dfy`). `IpfixLayout` and `IpfixReader` say which octets
   a message becomes and what octets mean, and `IpfixSpace` what fits into its buffer. `IpfixWriter`
   is the exporter with its array, which prepends templates, appends data sets, patches lengths and
   prepends the header last;
   `IpfixImporter` is the importer with its cursors. Both are proved against these two
   specifications, and the round trip is proved about the specifications. `IpfixWire` and
   `IpfixInput` say in literal octets what goes out and what is taken in.
2. **The TLV codec and its store** (`MnslpObject`, `IeStore`, `MnslpMsg`, `MnslpRoundTrip`,
   `MnslpWire`). The map ordered by the sum of type and sequence number is proved to be an exact-key
   map for all messages, messages are proved to survive the wire, and `MnslpWire` has their octets.
3. **The signalling protocol** (`Serial`, `PolicyRule`, `ExportSelection`, `Session`, `Ledger`,
   `Initiator`, `Forwarder`, `Responder`, `Dispatcher`, `NodeRuns`, `RefreshOnce`, `PathShares`,
   `Path`, `PathSelection`, `PathRefresh`, `PathTeardown`, `PathBooks`). Each kind of session is a
   transition function on values, and a class whose handlers update fields in place and are proved to
   follow it. `InitiatorConduct`, `ForwarderConduct`, `ResponderConduct` and `NodeConduct` say what
   can be seen of it from outside (`Observed`): messages, timers and their seconds, commands. Whole
   runs of a node and whole paths of nodes are built from the transition functions.

## Reading the model

- The metering process, the node's configuration and the network are oracles: which objects a node
  accepts, into how many commands they turn, and which commands are accepted or removed is arbitrary.
- Events, the random draws of ids and keys, and the clock are inputs.
- `get_last_refresh_message()` is an option, and an absent message matches no response, as in
  include/events.h:641. The missing return at src/ni_session.cpp:456 is taken as `STATE_CLOSE`.
- Numbers are unbounded unless the source's width matters; where it does (sequence numbers, header
  words, the 16-bit length, the key sums, the refresh interval) the wrap-around is written out.
- Sections 3.1 to 3.4 and 7 of RFC 7011 are the wire format that the codec implements.

## Where the code departs from what it promises

- Import gives templates new ids, 256 and on in wire order, and templates are written in reverse. So
  a message only keeps its template ids in three small shapes; `IpfixRoundTrip.RoundTrip` proves that
  condition to be exact, and `IpfixCounterexamples` has a message that loses a template.
- Numeric values are copied in the host's order, here little-endian, also in network mode, while
  section 6.1 of RFC 7011 asks for network order. Two such hosts understand each other; others read
  a different number, unless it is the same both ways (`Bytes.HostOrderIff`).
- The buffer of a message has 1400 octets and never grows: the test after `realloc` is inverted, and
  it is only reached if the missing octets alone do not fit behind the fill level. So an output that
  does not fit throws, or runs over the end of the buffer; `IpfixSpace.PlaceIff` says which. The
  model reports `Overrun` where the original writes past its buffer. Import has no such test at all, and overruns exactly
  when it has read more than 1400 octets (`IpfixReader.ImportInto`).
- A template with scope fields and other fields cannot be written or read: `get_field` does not
  subtract the scope count (`IpfixLayout.ReadableIff`).
- A second output of a message leaves out the templates it has sent before
  (`IpfixRoundTrip.SecondOutputIsBare`).
- What an action is checked for and what it meters are found by two different searches, which can
  disagree both ways (`ExportSelection.AvailableIsOffered`, `ExportSelection.CheckedNotMeteredIff`).
- The keys of a record and of the store are ordered by a weighted sum and by a sum. Both are sound
  for the keys in use only (`IpfixField.RankSeparates`, `IeStore.KeysSeparated`).
- On a data set whose template only has fields of length zero that decode to nothing, the record loop
  of the importer never ends (`IpfixProgress.EndlessIff`). The model reports `Endless` there.
- An output after an import writes to the header of the set that the import left open, in a buffer
  that the output has deleted (`IpfixWriter.Exporter.Output`). The model reports `Released`.
- A forwarder that meters and has seen no REFRESH answers it when the next node becomes unreachable,
  and dereferences null (`Forwarder.NullRefreshIff`). The model closes the session and sends nothing.
- The answer to a REFRESH does not stop the timer by which a forwarder waits for it. If no other
  REFRESH comes first, that timer ends the session (`ForwarderConduct.AnsweredRefreshTimesOut`).
- A CONFIGURE that replaces another one at a forwarder is not limited to the lifetime that the node
  grants (`ForwarderConduct.RequestIsRepeated`).
- A CONFIGURE that has an information code lists it among its metering objects, where the original
  copies a null pointer (`IeStore.InsertionOrder`). The model lists the object.
- Without retries the first refresh comes after the session has expired
  (`Initiator.SetupWithinLifetime`).

## Model

| member | source | states |
|---|---|---|
| `Bytes.SignedRoundTrip` | src/msg/mnslp_ipfix_message.cpp:79-89 | A 32-bit header word, written most significant octet first and read back into an `int`, is the same number for every signed 32-bit value. |
| `Bytes.HostRoundTrip` | src/msg/mnslp_ipfix_field.cpp:139-200 | A value that fits into k octets comes back from the k octets that `memcpy` wrote in host order. |
| `Bytes.HostOrderIff` | src/msg/mnslp_ipfix_field.cpp:139-200 | What `memcpy` writes is in network order if and only if the number reads the same both ways, for 16 and for 32 bits. |
| `Bytes.PortChangesOrder` | src/msg/mnslp_ipfix_field.cpp:139-200 | The concrete case: the port 80 goes out as the octets of 20480. |
| `IpfixField.DecodeInvertsEncode` | src/msg/mnslp_ipfix_field.cpp:652-705 | Decoding the octets of a value gives the value back if and only if the element can carry it (coding, dictionary length and value length agree; strings never). |
| `IpfixField.LookupFindsEveryElement` | src/msg/mnslp_ipfix_field.cpp:2034-2049 | In a dictionary without two equal keys every element is found under its own key, whatever the order of insertion. |
| `IpfixField.FieldContainer.AddFieldType` | src/msg/mnslp_ipfix_field.cpp:1150-1162 | Appends an element exactly when no element with this key is there, so keys stay distinct. |
| `IpfixField.FieldContainer.GetField` | src/msg/mnslp_ipfix_field.cpp:2034-2049 | The scan of the list answers as the lookup does. |
| `IpfixField.RankSeparates` | src/msg/mnslp_ipfix_field.cpp:49-72 | eno * 1000 + ftype identifies two keys exactly when their elements differ by the matching multiple of 1000; never for elements in [0, 1000). |
| `IpfixField.RankCollides` | src/msg/mnslp_ipfix_field.cpp:62-72 | Outside that range it fails: a concrete pair of keys with one rank. |
| `IpfixField.RecordIsExactMap` | src/msg/mnslp_ipfix_data_record.cpp:59-125 | After any sequence of insertions with elements in [0, 1000), a lookup returns the first value inserted under exactly that key, and an error if there was none. |
| `IpfixLayout.TemplateSizeExact` | src/msg/mnslp_ipfix_message.cpp:779-799 | The size that `_write_template` computes in advance is the number of octets of the template set, for every mix of standard and vendor, data and scope fields. |
| `IpfixLayout.ReadableIff` | src/msg/mnslp_ipfix_template.cpp:67-79 | The loops over all fields of a template stay inside its two vectors if and only if it has no scope fields or nothing else, because `get_field` does not subtract the scope count; then they visit each field once, in order. |
| `IpfixLayout.BodyGrows` | src/msg/mnslp_ipfix_message.cpp:1006-1132 | One more `output_set` puts its template set, if it was not sent before, in front of everything and its data sets behind everything, so templates are in reverse write order and precede all data. |
| `IpfixLayout.FirstOutput` | src/msg/mnslp_ipfix_message.cpp:1023-1025 | The output before which nothing was sent has every template set. |
| `IpfixSpace.PlaceIff` | src/msg/mnslp_ipfix_message.cpp:316-330 | Exactly when the check before a write lets it fit, makes it throw, or lets it run over the end of the buffer; what is written may be less than what was announced. |
| `IpfixSpace.NoOverrunIff` | src/msg/mnslp_ipfix_message.cpp:316-330 | Where what is written was announced, a write stays in the buffer if and only if it fits or the inverted test throws. |
| `IpfixSpace.HeaderOverruns` | src/msg/mnslp_ipfix_message.cpp:695-701 | The concrete case: with 1390 of 1400 octets filled, the header runs over the end. |
| `IpfixSpace.PlacedOutput` | src/msg/mnslp_ipfix_message.cpp:959-998 | An output that succeeds in a buffer is exactly as long as its octets, and no longer than the buffer. |
| `IpfixSpace.RoomSuffices` | src/msg/mnslp_ipfix_message.cpp:1072-1074 | An output succeeds whenever the buffer has room for the templates and for each record twice, since the announced length accumulates. |
| `IpfixWriter.Append` | src/msg/mnslp_ipfix_message.cpp:814-830 | Octets written at a position come right behind what precedes it; nothing behind them changes. |
| `IpfixWriter.MoveUp` | src/msg/mnslp_ipfix_message.cpp:809-812 | `memmove` of the first n octets: they are found again, unharmed by the overlap, behind the gap. |
| `IpfixWriter.RecordSizeExact` | src/msg/mnslp_ipfix_message.cpp:1053-1096 | The size measured for a record before it is written is the number of octets it takes. |
| `IpfixWriter.PatchedSet` | src/msg/mnslp_ipfix_message.cpp:622-646 | Overwriting the header of the last set changes that header and no other octet. |
| `IpfixWriter.Exporter.IncludeData` | src/msg/mnslp_ipfix_message.cpp:1139-1160 | Adds the record and asks for a new output exactly if the template exists and has as many fields. |
| `IpfixWriter.Exporter.AllocateAdditional` | src/msg/mnslp_ipfix_message.cpp:316-335 | Throws exactly if the octets asked for would not fit behind the current fill level, and never grows the buffer. |
| `IpfixWriter.Exporter.CheckSpace` | src/msg/mnslp_ipfix_message.cpp:1072-1074 | Together with the write behind it: fits, throws or runs over the end exactly as Place says. |
| `IpfixWriter.Exporter.Measure` | src/msg/mnslp_ipfix_message.cpp:1053-1070 | The size loop adds exactly the size of the record to the length so far; it refuses only records that cannot be written. |
| `IpfixWriter.Exporter.SizeOf` | src/msg/mnslp_ipfix_message.cpp:779-799 | The loops over the fields compute the size of the template set, and read past a vector exactly for templates that are not readable. |
| `IpfixWriter.Exporter.WriteTemplate` | src/msg/mnslp_ipfix_message.cpp:770-952 | In the array: the template set, then everything that was there before; its id is marked as sent. For every template and fill level it succeeds, throws or runs over the end as Place says. |
| `IpfixWriter.Exporter.FinishCs` | src/msg/mnslp_ipfix_message.cpp:622-646 | Replaces the four octets at the header of the current set by its id and real length, closes the set, and changes nothing else. |
| `IpfixWriter.Exporter.OutputRecord` | src/msg/mnslp_ipfix_message.cpp:1098-1128 | Appends one data set with the right length in its header, although the length announced first accumulates over records; succeeds exactly for encodable records and counts them. |
| `IpfixWriter.Exporter.AddRecord` | src/msg/mnslp_ipfix_message.cpp:1053-1128 | Measures, checks the space and writes one record; for an encodable record the outcome is exactly that of Place. |
| `IpfixWriter.Exporter.OutputRecords` | src/msg/mnslp_ipfix_message.cpp:1045-1132 | The loop over the records appends one data set per matching record, in order, with no octet outside; where it stops for lack of space, and how, is exactly what PlaceRecords says. |
| `IpfixWriter.Exporter.AddToOpenSet` | src/msg/mnslp_ipfix_message.cpp:1028-1042 | A record for a set that an import left open always ends in an error; an encodable one in exactly that of its space, or because finish_cs writes into the buffer that was deleted. |
| `IpfixWriter.Exporter.OutputSet` | src/msg/mnslp_ipfix_message.cpp:1006-1132 | New buffer = template set (if not sent before) + old buffer + data sets of this template, for every template; throws for an unknown id, and fails when a set left open by an import is finished; otherwise the outcome is exactly that of PlaceSet when the records are encodable. |
| `IpfixWriter.OpenSetIsClean` | src/msg/mnslp_ipfix_message.cpp:1786-1794 | After an import nothing is finished only if the message has no template, or just that of the open set, without records. |
| `IpfixWriter.Exporter.WriteHdr` | src/msg/mnslp_ipfix_message.cpp:653-723 | Puts exactly 16 octets in front, with the total length; fits, throws or runs over the end exactly as Place says. |
| `IpfixWriter.Exporter.OutputKind` | src/msg/mnslp_ipfix_message.cpp:970-990 | Each of the two loops of `output` extends the layout by the templates of its kind, in ascending order of id, with the outcome of PlaceSets. |
| `IpfixWriter.Exporter.Output` | src/msg/mnslp_ipfix_message.cpp:959-998 | Any `output`, the first, a later one, or one after an import, leaves in the buffer exactly the octets of the specification, or nothing changes if none is required; for encodable records it succeeds, throws or overruns exactly as PlaceOutput says, and it fails whenever a set left open by an import would be finished. |
| `IpfixWire.FieldSpecOctets` | src/msg/mnslp_ipfix_message.cpp:893-945 | The octets of a field specifier: four for a standard element; for one of a vendor the first octet is at least 128, and octets 4 to 8 are the enterprise number (section 3.2 of RFC 7011). |
| `IpfixWire.TemplateSetOctets` | src/msg/mnslp_ipfix_message.cpp:855-890 | A template set begins with 0, 2, and with 0, 3 if it has options; then its length in octets, the id, the number of fields and, with options, of scope fields. |
| `IpfixWire.DataSetOctets` | src/msg/mnslp_ipfix_message.cpp:622-646 | A data set begins with the id of its template and its length with this header. |
| `IpfixWire.OutputOctets` | src/msg/mnslp_ipfix_message.cpp:653-723 | Every output begins with 0, 10; then the length of everything, the time, the records exported so far, and the domain. |
| `IpfixWire.ValueOctets` | src/msg/mnslp_ipfix_message.cpp:1053-1128 | A value is written if and only if it is shorter than 65536 octets, no longer than the template says, and fit for the element; it is never filled up, and of variable length it comes behind one or three octets of length. |
| `IpfixWire.NoValue` | src/msg/mnslp_ipfix_message.cpp:1053-1070 | A record without a value for a field cannot be written. |
| `IpfixWire.EncodedOctets` | src/msg/mnslp_ipfix_field.cpp:139-200 | The octets of numbers, least significant first, of octet strings, and, where an element has no such length, 255s. |
| `IpfixWire.MixedOctets` | src/msg/mnslp_ipfix_message.cpp:959-998 | One whole message, octet by octet: a header, a template with a standard and a vendor field, and a record. |
| `IpfixImporter.Importer.ReadFieldAt` | src/msg/mnslp_ipfix_message.cpp:1339-1450 | The cursor arithmetic of one field specifier agrees with the reader specification, including its errors. |
| `IpfixImporter.Importer.DecodeTrecord` | src/msg/mnslp_ipfix_message.cpp:1309-1460 | Template records are decoded, renumbered and stored as specified, and the cursor ends where the specification says. |
| `IpfixImporter.Importer.DecodeDatarecord` | src/msg/mnslp_ipfix_message.cpp:1562-1628 | One data record is decoded field by field from the buffer; errors and the octets consumed agree with the specification. |
| `IpfixImporter.Importer.ReadRecordsAt` | src/msg/mnslp_ipfix_message.cpp:1748-1772 | The record loop of a data set agrees with the specification, including running out of octets. |
| `IpfixImporter.Importer.ReadSetsAt` | src/msg/mnslp_ipfix_message.cpp:1684-1778 | The set loop reads the same sets as the specification and stops at the same octet. |
| `IpfixImporter.Importer.CopyRawMessage` | src/msg/ipfix_t.cpp:180-192 | Keeps the octets that were read, and runs over the end of the buffer exactly if they are more than its capacity. |
| `IpfixImporter.Importer.Import` | src/msg/mnslp_ipfix_message.cpp:1651-1808 | Import over an index-driven buffer gives exactly the specified result or the specified error, and keeps the octets read. |
| `IpfixInput.HeaderIsRead` | src/msg/mnslp_ipfix_message.cpp:1195-1290 | Which octets are taken for a header, which for version 9, and which are refused; the places of time, sequence number and domain. The length in the header is not looked at. |
| `IpfixInput.SetIsRead` | src/msg/mnslp_ipfix_message.cpp:1684-1778 | Up to four octets are left alone; a set shorter than its header loses only that; one that is too long ends the import silently; ids 4 to 255 are skipped; a data set needs a template of this message. |
| `IpfixInput.TemplateIsRead` | src/msg/mnslp_ipfix_message.cpp:1309-1460 | A template record gets the next id whatever its own is, and one without fields is an error, with and without options. |
| `IpfixInput.OlderTemplateIsRead` | src/msg/mnslp_ipfix_message.cpp:1339-1385 | The template sets of version 9 are taken too: set 0 as set 2 is, and set 1 with lengths, which must cover what is left of the set, in place of counts. |
| `IpfixInput.FieldsAreSplit` | src/msg/mnslp_ipfix_message.cpp:1339-1450 | As many of the fields are scope fields as the option template says, and all others are data fields. |
| `IpfixInput.FieldIsRead` | src/msg/mnslp_ipfix_message.cpp:1339-1450 | The octets of a field specifier; an element that is not known is read as element 0, and is an error if that is not known either. |
| `IpfixInput.LengthIsRead` | src/msg/mnslp_ipfix_message.cpp:1562-1600 | A variable length is one octet, or two behind the octet 255; reading past the octets is an error. |
| `IpfixInput.ValueIsRead` | src/msg/mnslp_ipfix_message.cpp:1562-1628 | One value of a record: only octets of values count against what is left of the set; too many of them, or of all octets, are two different errors; the first value under a key is kept. |
| `IpfixInput.ValueIsDecoded` | src/msg/mnslp_ipfix_field.cpp:652-705 | What each coding makes of so many octets: a number, an octet string, nothing, or an error. |
| `IpfixProgress.RecordAdvances` | src/msg/mnslp_ipfix_message.cpp:1562-1628 | Decoding a record consumes no octet if and only if all fields of its template have length zero. |
| `IpfixProgress.HollowIff` | src/msg/mnslp_ipfix_message.cpp:1562-1628 | A record decodes without taking an octet if and only if every field of its template can be looked up, has length zero, and decodes from nothing. |
| `IpfixProgress.EndlessIff` | src/msg/mnslp_ipfix_message.cpp:1748-1772 | The record loop fails to terminate if and only if octets are left and the template is such a one, whatever the octets are. |
| `IpfixTemplateTrip.ReadTemplateSets` | src/msg/mnslp_ipfix_message.cpp:1309-1460 | Template sets that were exported are read back one by one, and nothing behind them is touched. |
| `IpfixRecordTrip.ReadRecord` | src/msg/mnslp_ipfix_message.cpp:1562-1628 | The octets of a record that fits its template decode to the same record and are consumed exactly. |
| `IpfixRenumbering.WriteOrderLists` | src/msg/mnslp_ipfix_message.cpp:959-990 | `output` visits every template exactly once. |
| `IpfixRenumbering.WriteGroups` | src/msg/mnslp_ipfix_message.cpp:970-990 | Option templates come first, then the others, each in ascending order of id. |
| `IpfixRenumbering.OnlyConsecutiveIdsSurvive` | src/msg/mnslp_ipfix_message.cpp:1400-1434 | If importing templates gives back the same ids, they were numbered 256, 257, ... in wire order. |
| `IpfixRenumbering.ConsecutiveIdsSurvive` | src/msg/mnslp_ipfix_message.cpp:375-417 | Templates numbered 256, 257, ... in wire order come back under their own ids. |
| `IpfixRenumbering.ConsecutiveShape` | src/msg/mnslp_ipfix_message.cpp:959-990 | The wire order is consecutive if and only if the message has no template, one template 256, or data template 256 with option template 257. |
| `IpfixRegroup.RegroupKeepsRecords` | src/msg/mnslp_ipfix_message.cpp:1006-1136 | Regrouping by template loses and adds no record: the same multiset of exported records. |
| `IpfixRegroup.RegroupIsStable` | src/msg/mnslp_ipfix_message.cpp:1006-1136 | The records of each template keep their order. |
| `IpfixRoundTrip.ReadHeader` | src/msg/mnslp_ipfix_message.cpp:1195-1290 | The 16 octets of the header are parsed to the fields they were written from (section 3.1 of RFC 7011). |
| `IpfixRoundTrip.RoundTrip` | src/msg/mnslp_ipfix_message.cpp:959-1136 | For every well-formed message, with any number of templates, fields and records and up to four octets of padding: importing its first output gives back the same templates if and only if the message has the small shape; and then header, templates, ids and values are all back, the records stably regrouped, and the octets read are the unpadded length. |
| `IpfixRoundTrip.ExportIsCanonical` | src/msg/mnslp_ipfix_message.cpp:1651-1808 | What was imported exports to the very octets it came from. |
| `IpfixRoundTrip.SecondOutputIsBare` | src/msg/mnslp_ipfix_message.cpp:1023-1025 | An output after all templates were sent succeeds in being written, but import refuses it if and only if it has a record. |
| `IpfixCounterexamples.TwoTemplatesAreLost` | src/msg/mnslp_ipfix_message.cpp:1400-1434 | A concrete well-formed message with two data templates that does not come back. |
| `IpfixCounterexamples.EmptyFieldNeverEnds` | src/msg/mnslp_ipfix_message.cpp:1748-1772 | The 33 octets of a concrete message, with one field of length zero, on which import does not end. |
| `IpfixCounterexamples.OneFrameOutcome` | src/msg/mnslp_ipfix_message.cpp:316-330 | For one record of n octets, in the buffer of 1400: exported up to 1365; header overrun to 1373, refused to 1381; data set overrun to 2769, refused beyond. |
| `IpfixCounterexamples.TwoFramesOutcome` | src/msg/mnslp_ipfix_message.cpp:1053-1074 | For two records of n octets each, since the length asked for accumulates: exported up to 679; then the header overruns or is refused, and then the second record. |
| `IpfixCounterexamples.LongMessageOverruns` | src/msg/ipfix_t.cpp:180-192 | Concrete octets, 1401 of them, that import reads completely but cannot keep. |
| `MnslpObject.HeaderRoundTrip` | src/msg/mnslp_object.cpp:111-248 | Packing and unpacking the header word keep type and treatment; the length comes back if and only if the body has fewer than 16384 octets (12 bits of words). |
| `MnslpWire.WordOctets` | src/msg/mnslp_object.cpp:203-248 | The eight octets of every object with a 32-bit value: treatment in the first two bits, type, length 1, value. |
| `MnslpWire.MspecOctets` | src/msg/mnslp_ipfix_message.cpp:240-272 | The octets of a metering object: type 0xF9, the length in words, its octets, and zeros up to a full word. |
| `MnslpRoundTrip.ChecksIff` | src/msg/mnslp_configure.cpp:169-205 | check() on the objects that a message holds: a CONFIGURE has types 0xF5 to 0xF8, a RESPONSE none but 0xF4, 0xF7 and 0xF8, a REFRESH exactly 0xF7 and 0xF8. |
| `MnslpWire.ConfigureOctets` | src/msg/mnslp_configure.cpp:100-150 | A CONFIGURE can be written if and only if it has its four unique objects; its octets are then type 1, number, lifetime, entities, hop count, and the metering objects. |
| `MnslpWire.ConfigurePlaces` | src/msg/mnslp_configure.cpp:116-137 | So the types 0xF7, 0xF8, 0xF5 and 0xF6 are at octets 5, 13, 21 and 29, their values behind them, and the metering objects start at octet 36. |
| `MnslpWire.ResponseOctets` | src/msg/mnslp_response.cpp:97-134 | A RESPONSE can be written if and only if it has exactly its three unique objects, with an information code of 28 bits and no object type; type 2, number, information code, lifetime, metering objects. |
| `MnslpWire.RefreshOctets` | src/msg/mnslp_refresh.cpp:96-121 | A REFRESH can be written if and only if it has its two unique objects and no metering objects; type 5, number, lifetime. |
| `MnslpWire.SampleOctets` | src/msg/mnslp_configure.cpp:100-150 | One whole CONFIGURE, octet by octet. |
| `MnslpWire.HeaderOctets` | src/msg/mnslp_object.cpp:111-150 | The header of an object that is read: two bits, twelve bits of type, twelve bits of length in words. |
| `MnslpWire.WordIsRead` | src/msg/mnslp_object.cpp:132-195 | A unique object takes eight octets whatever length its header states, if there are that many; an information code loses four bits, and must not have an object type. |
| `MnslpWire.MspecIsRead` | src/msg/mnslp_ipfix_message.cpp:170-203 | A metering object is read if and only if its body imports and only zeros follow what import has read. |
| `MnslpWire.OtherTypes` | src/msg/mnslp_object.cpp:132-150 | Objects of other types are refused. |
| `MnslpWire.MessageIsRead` | src/msg/mnslp_msg.cpp:181-290 | Which octets are a message: at least four, of which the first is a type from 1 to 5, and at least one object. |
| `MnslpWire.TwinsAreRefused` | src/msg/mnslp_msg.cpp:236-256 | A second unique object of one type ends the reading; a second metering object does not. |
| `MnslpRoundTrip.DecodeWord` | src/msg/mnslp_object.cpp:168-248 | Every valid object with a 32-bit value is read back as it was, followed by the rest. |
| `MnslpRoundTrip.DecodeMspec` | src/msg/mnslp_ipfix_message.cpp:170-272 | A metering object of any exporter survives serialize and deserialize, padding included, if and only if its octets fit into the 1400 of the receiving buffer. |
| `MnslpRoundTrip.OutputSurvives` | src/msg/mnslp_ipfix_message.cpp:959-998 | Every metering object that an exporter with the buffer of the program has output survives, with no condition on its size. |
| `MnslpRoundTrip.CanonicalTwice` | src/msg/mnslp_ipfix_message.cpp:1651-1808 | Going over the wire again changes nothing more. |
| `MnslpRoundTrip.MessageRoundTrip` | src/msg/mnslp_msg.cpp:181-375 | For every complete CONFIGURE, RESPONSE and REFRESH with any number of metering objects: serialize succeeds, deserialize gives the same type, the same unique objects and the metering objects numbered 1..n in order, and the octets written equal get_serialized_size before and after. |
| `IeStore.KeysSeparated` | include/msg/ie_object_key.h:77-89 | The sum order takes two keys for one if and only if their sums agree modulo 2^32; keys that messages use never do. |
| `IeStore.KeysCollide` | include/msg/ie_object_key.h:86-89 | Other keys do: a concrete pair. |
| `IeStore.StoreRefinesExactMap` | src/msg/ie_store.cpp:127-213 | Over any run of set_object, the store holds what a map with exact keys would: the last object of each unique type, and the metering objects numbered 1..n without gaps, in order. |
| `IeStore.MaxSequenceIsCount` | src/msg/ie_store.cpp:197-213 | getMaxSequence is the number of metering objects. |
| `IeStore.LookupIsExact` | src/msg/ie_store.cpp:127-145 | Every lookup under a key a message uses answers as the exact-key map does. |
| `IeStore.InsertionOrder` | src/msg/mnslp_configure.cpp:336-351 | get_mspec_objects returns the metering objects in the order they were set, behind the information code if there is one. |
| `IeStore.Store.Set` | src/msg/ie_store.cpp:155-175 | Insertion at the place that the order of the keys finds is the sorted insertion, and the entries stay sorted. |
| `IeStore.Store.Find` | src/msg/ie_store.cpp:127-145 | The search returns the entry with an equivalent key. |
| `IeStore.Store.GetMaxSequence` | src/msg/ie_store.cpp:197-213 | The loop computes the largest sequence number of a type. |
| `MnslpMsg.MnslpMessage.SetObject` | src/msg/mnslp_msg.cpp:464-479 | Unique objects go to sequence number 1, others to the next free one. |
| `MnslpMsg.MnslpMessage.GetSerializedSize` | src/msg/mnslp_msg.cpp:352-363 | The loop adds up the sizes of all objects and the message header. |
| `MnslpMsg.MnslpMessage.GetMspecObjects` | src/msg/mnslp_configure.cpp:336-351 | The loop collects the objects of the remaining types, in map order. |
| `MnslpMsg.MnslpMessage.Serialize` | src/msg/mnslp_configure.cpp:100-199 | Writes the unique objects in the order of the protocol and then the metering objects 1..max, or fails as specified. |
| `MnslpMsg.MnslpMessage.Deserialize` | src/msg/mnslp_msg.cpp:181-290 | The cursor loop rebuilds the store that the specification says, with the same error for every malformed input. |
| `Serial.IsGreaterIff` | src/msg/ntlp_msg.cpp:143-148 | is_greater_than(a, b) if and only if 0 < (a - b) mod 2^32 < 2^31 (section 3.2 of RFC 1982). |
| `Serial.Asymmetric` | src/msg/ntlp_msg.cpp:143-148 | Never both ways round; one way round unless equal or exactly half the circle apart. |
| `Serial.OrderedWithinHalf` | src/msg/ntlp_msg.cpp:143-148 | Counters less than 2^31 apart are ordered as their wrapped numbers are. |
| `Serial.Transitive` | src/msg/ntlp_msg.cpp:143-148 | Two steps compose if and only if their distances together stay below 2^31. |
| `Serial.GreaterAfter` | src/session.cpp:130-132 | After n calls of next_msg_sequence_number the number is greater than it was if and only if 0 < n mod 2^32 < 2^31. |
| `PolicyRule.InstallRecordsAccepted` | src/netmate_ipfix_policy_rule_installer.cpp:156-194 | A command is in the rule that install returns if and only if it was accepted and belongs to one of the objects. |
| `PolicyRule.WholeRuleIff` | src/netmate_ipfix_policy_rule_installer.cpp:156-194 | The returned rule has as many objects as the given one if and only if every object has an accepted command, and then it has the same objects. |
| `PolicyRule.EachRemovedOnce` | src/netmate_ipfix_policy_rule_installer.cpp:200-231 | remove of what install returned issues every recorded command exactly once. |
| `PolicyRule.Installer.InstallObject` | src/netmate_ipfix_policy_rule_installer.cpp:172-192 | The command loop records exactly the accepted ids; the metering process gains exactly these commands. |
| `PolicyRule.Installer.Install` | src/netmate_ipfix_policy_rule_installer.cpp:156-194 | The loop over the objects returns the specified rule and installs exactly its commands. |
| `PolicyRule.Installer.Remove` | src/netmate_ipfix_policy_rule_installer.cpp:200-231 | Tries every recorded command, removes the released ones, and returns as many keys as the rule has, whatever is refused, so remove_policy_rules never throws. |
| `ExportSelection.SearchIsLeast` | src/policy_action_container.cpp:126-214 | The sort and the scan with early exit find the least entry by (priority, name) that will do, and nothing exactly when none will. |
| `ExportSelection.PackageIsLeast` | src/policy_action_container.cpp:183-214 | get_package resolves a field to the least action by (priority, name) that has a package for it, and to none exactly when none has. |
| `ExportSelection.PackageOfIsLeast` | src/policy_action.cpp:285-326 | get_package of an action: the configuration of the least mapping, by (priority, name), for the application that supports the field. |
| `ExportSelection.AvailableIsLeast` | src/policy_action.cpp:244-283 | check_field_availability of an action: the least mapping, by (priority, name), for the application decides alone. |
| `ExportSelection.AvailableMeans` | src/policy_action.cpp:244-326 | What check_field_availability finds available, get_package meters by the very mapping that was checked, if that is configured. |
| `ExportSelection.SoundIff` | src/policy_action.cpp:244-326 | An action meters every field it is available for if and only if its least mapping for the application is configured or supports nothing, or there is none. |
| `ExportSelection.AvailableIsOffered` | src/policy_action.cpp:244-326 | For any mappings of an action, several of one application included: exactly when the two searches agree on a field. |
| `ExportSelection.RefusedThoughMetered` | src/policy_action.cpp:244-326 | A concrete action with two configured mappings of one application: the check refuses a field that get_package resolves. |
| `ExportSelection.ConfiguredAgrees` | src/policy_action.cpp:102-171 | With one configured mapping for each application, as read from the configuration, the two searches agree on all fields. |
| `ExportSelection.CheckedIsMetered` | src/policy_action_container.cpp:126-153 | What the check of a container accepts is metered if the least mapping of each action is sound; with one mapping for each application it accepts exactly what is metered. |
| `ExportSelection.CheckedNotMeteredIff` | src/policy_action_container.cpp:126-214 | In any container: exactly when a field is accepted and yet not metered. |
| `ExportSelection.UnconfiguredIsNotMetered` | src/policy_action_mapping.cpp:102-122 | A concrete container that passes the check and meters nothing: its mapping has no configuration, and so the lowest priority there is. |
| `ExportSelection.ExportsAreExact` | src/netmate_ipfix_policy_rule_installer.cpp:379-456 | The commands have distinct targets, and a procedure is run for a target if and only if that is the package of some exportable field. |
| `ExportSelection.AcceptedIsMetered` | src/netmate_ipfix_policy_rule_installer.cpp:357-456 | Every field of an accepted object is metered by the procedure of its package, in exactly one command for its target, where the least mapping of each action is sound. |
| `ExportSelection.HandleExportFields` | src/netmate_ipfix_policy_rule_installer.cpp:357-376 | Accepts exactly the field lists of which every field is exportable for the application and available in some action. |
| `ExportSelection.BuildExports` | src/netmate_ipfix_policy_rule_installer.cpp:379-430 | The loop over the fields builds the specified commands, and skips fields that are not exportable. |
| `Session.TakenAndLeftAreAll` | src/ni_session.cpp:243-263 | What a node takes and what it passes on are together, as a multiset, what it was given. |
| `Session.TakenIsAccepted` | src/nf_session.cpp:181-213 | What it takes it participates in and accepts, under consecutive fresh keys. |
| `Session.LeftIsRefused` | src/nf_session.cpp:181-213 | What it passes on it does not accept. |
| `Session.Services.Split` | src/nr_session.cpp:127-174 | The loop over the objects fills the two collections as specified. |
| `Session.Services.Start` | src/mnslp_timers.cpp:46-54 | Starting or restarting a timer gives it an id that was never used. |
| `Initiator.StepKeeps` | src/ni_session.cpp:281-600 | Every step of an initiator exchanges exactly the commands it held for the commands it holds, touches no command of another session, and holds none in CLOSE. |
| `Initiator.TimerDescends` | src/ni_session.cpp:344-361 | Every timer of a running initiator lowers its rank: max_retries - counter + 1 while it awaits a response, max_retries + 2 while the refresh timer runs. |
| `Initiator.SetupWithinLifetime` | src/ni_session.cpp:230-241 | The first refresh interval is positive, and within the lifetime if and only if retries are allowed. |
| `Initiator.LateWithoutRetries` | src/ni_session.cpp:233-241 | Without retries: a session of three seconds is first refreshed after four. |
| `Initiator.RefreshWithinLifetime` | include/ni_session.h:103 | An adopted lifetime is never exceeded by its refresh interval; the interval is two thirds of it if and only if the lifetime is below 2^31. |
| `Initiator.StepInTime` | src/ni_session.cpp:420-426 | With retries, no step of an initiator leaves a refresh interval that exceeds the lifetime. |
| `Initiator.RunInTime` | src/ni_session.cpp:611-637 | So it is in every state of every run. |
| `Initiator.LifeInTime` | src/ni_session.cpp:281-328 | From the request that creates the session on. |
| `Initiator.NiSession.SetupSession` | src/ni_session.cpp:203-278 | The session object takes its share under fresh keys, computes interval and timeout, and returns the missing objects. |
| `Initiator.NiSession.HandleClose` | src/ni_session.cpp:281-328 | Updates fields, timers and messages exactly as the transition function says. |
| `Initiator.NiSession.HandlePending` | src/ni_session.cpp:334-471 | The same, for PENDING: retry, give up, teardown, success with complete or partial installation, failure. |
| `Initiator.NiSession.HandleMetering` | src/ni_session.cpp:477-600 | The same, for METERING: refresh, retry, give up, teardown, answers. |
| `Initiator.NiSession.ProcessEvent` | src/ni_session.cpp:611-637 | One event moves the object and the services as the transition function moves their values. |
| `InitiatorConduct.RequestIsSent` | src/ni_session.cpp:281-328 | A request sends one CONFIGURE with its lifetime, selection and hops and the next number, and starts the response timer for the computed timeout; nothing is installed. |
| `InitiatorConduct.IntervalsAreLeast` | src/ni_session.cpp:230-241 | The interval is the least number that, times 1.5 (K + 0.5), reaches the lifetime, for K retries; the timeout is the least that reaches its random part of the interval. |
| `InitiatorConduct.EndsIff` | src/ni_session.cpp:334-600 | A session ends if and only if the user tears it down, the next node is unreachable before the answer, the last retry expires, a failure answers, or it cannot install its own share. |
| `InitiatorConduct.TeardownIsSent` | src/ni_session.cpp:536-549 | A teardown, and a success with a share that cannot be installed, send exactly one message, a REFRESH of lifetime 0 with the next number, and have every command that was installed removed. |
| `InitiatorConduct.OtherEndsAreSilent` | src/ni_session.cpp:522-531 | Every other end sends nothing and starts no timer; a session that meters has all its commands removed. |
| `InitiatorConduct.ReactsIff` | src/ni_session.cpp:464-470 | Apart from its ends, it reacts to its timers and to answers to its last request, and to nothing else. |
| `InitiatorConduct.SetUpIsConfirmed` | src/ni_session.cpp:413-439 | The success adopts the lifetime, installs the share, and starts the refresh timer: for the old interval if the lifetime is the old one, else for two thirds of the new one. |
| `InitiatorConduct.RefreshIsSent` | src/ni_session.cpp:487-504 | The refresh timer sends a REFRESH of the session lifetime with the next number, forgets the retries, and starts the response timer. |
| `InitiatorConduct.RefreshIsConfirmed` | src/ni_session.cpp:575-584 | Its success stops waiting and starts the refresh timer for the interval. |
| `InitiatorConduct.RetriesAreCounted` | src/ni_session.cpp:344-361 | For any number of expiries of the response timer: the stored request has been sent again, unchanged, that many times, until the retries are used up and the next expiry ends the session. |
| `InitiatorConduct.RequestIsRepeated` | src/ni_session.cpp:344-361 | So a CONFIGURE that is never answered is sent max_retries + 1 times, and nothing is ever installed. |
| `InitiatorConduct.RefreshIsRepeated` | src/ni_session.cpp:505-532 | And so is a REFRESH, whatever came before it; then all commands are removed. |
| `Forwarder.StepKeeps` | src/nf_session.cpp:363-799 | Every step of a forwarder exchanges exactly the commands it held for the commands it holds, and holds none in CLOSE. |
| `Forwarder.TimerDescends` | src/nf_session.cpp:685-720 | Every current timer ends a forwarder session; others only disappear. |
| `Forwarder.NfSession.ProcessStateClose` | src/nf_session.cpp:305-360 | Takes its share, passes the rest on, and starts the state timer, as specified. |
| `Forwarder.NfSession.HandleConfirmed` | src/nf_session.cpp:533-568 | Installs; with everything installed it confirms, otherwise it removes what it installed, tears down towards the responder and reports the error. |
| `Forwarder.NfSession.HandlePending` | src/nf_session.cpp:424-592 | All branches of PENDING, resending and replacement of a CONFIGURE included, as specified. |
| `Forwarder.NfSession.HandleRefresh` | src/nf_session.cpp:610-676 | A newer REFRESH is applied and passed on; an older one changes nothing. |
| `Forwarder.StepKeepsRefreshKnown` | src/nf_session.cpp:610-676 | The response timer of a forwarder runs only for a REFRESH it has stored. |
| `Forwarder.NullRefreshIff` | src/nf_session.cpp:685-705 | The last REFRESH is missing where it is answered if and only if the next node is unreachable in METERING before the first REFRESH. |
| `Forwarder.NullRefreshAfterSetUp` | src/nf_session.cpp:685-705 | This can happen to every forwarder that has just been set up. |
| `Forwarder.NfSession.HandleMetering` | src/nf_session.cpp:598-799 | All branches of METERING as specified. |
| `Forwarder.NfSession.ProcessEvent` | src/nf_session.cpp:806-830 | One event moves the object as the transition function moves its value. |
| `ForwarderConduct.RequestIsPassedOn` | src/nf_session.cpp:363-419 | A CONFIGURE is passed on with the lesser of its lifetime and the limit, its number, selection and hops, and the state timer runs that long; with no lifetime to grant nothing happens. |
| `ForwarderConduct.RequestIsRepeated` | src/nf_session.cpp:440-489 | Another CONFIGURE before the answer: the same number is passed on as it is; a greater one of lifetime 0 ends the session; any other replaces it, and its lifetime is not limited. |
| `ForwarderConduct.EndsIff` | src/nf_session.cpp:495-799 | A session ends if and only if the next node is unreachable, a route is lost in METERING, one of its timers expires, the initiator calls it off, or the answer is a failure, comes to a share that cannot be installed, or confirms a lifetime of 0. |
| `ForwarderConduct.EndReleases` | src/nf_session.cpp:689-733 | Whatever ends it, it has exactly the commands removed that it had installed. |
| `ForwarderConduct.EndSays` | src/nf_session.cpp:495-568 | What it sends at its end: the answer, or a failure to its last request, or nothing; and only if its own share fails a REFRESH of lifetime 0 to the nodes behind it. |
| `ForwarderConduct.SetUpIsConfirmed` | src/nf_session.cpp:533-548 | The success is passed back as it is, the share installed, and the state timer started for the lifetime. |
| `ForwarderConduct.RefreshIsPassedOn` | src/nf_session.cpp:608-675 | A newer REFRESH is passed on as it is and taken over up to the limit; one of lifetime 0 does not move the number; an older one changes nothing. |
| `ForwarderConduct.RefreshIsConfirmed` | src/nf_session.cpp:753-770 | Its success is passed back as it is, and the state timer started for the lifetime. |
| `ForwarderConduct.IgnoresOthers` | src/nf_session.cpp:783-795 | Apart from its ends, nothing else has any effect. |
| `ForwarderConduct.TeardownIsPassedOn` | src/nf_session.cpp:755-764 | From the REFRESH of lifetime 0 to its success: both are passed on, the session meters until the answer, and then ends with all its commands removed. |
| `ForwarderConduct.AnsweredRefreshTimesOut` | src/nf_session.cpp:753-770 | A confirmed REFRESH leaves the response timer running: when it expires, the session ends, and a failure is sent for a REFRESH that was answered. |
| `Responder.StepKeeps` | src/nr_session.cpp:187-382 | Every step of a responder exchanges exactly the commands it held for the commands it holds, and holds none in CLOSE. |
| `Responder.TimerDescends` | src/nr_session.cpp:359-375 | The state timer ends a responder session. |
| `Responder.NrSession.HandleClose` | src/nr_session.cpp:187-278 | Accepts with its own share installed completely, or answers with an error and leaves nothing installed. |
| `Responder.NrSession.HandleMetering` | src/nr_session.cpp:284-382 | Newer REFRESH, REFRESH with lifetime 0, and timeout, as specified. |
| `Responder.NrSession.ProcessEvent` | src/nr_session.cpp:390-411 | One event moves the object as the transition function moves its value. |
| `ResponderConduct.RequestIsAnswered` | src/nr_session.cpp:187-278 | A CONFIGURE is answered with success, the granted lifetime and its number, and metered for that long, if and only if some lifetime is granted, every object is one the node takes, and all can be installed; else with a failure. |
| `ResponderConduct.FailureReleases` | src/nr_session.cpp:250-278 | A share that cannot be installed as a whole is taken back; before that nothing is installed. |
| `ResponderConduct.RefreshIsAnswered` | src/nr_session.cpp:292-355 | A newer REFRESH is always answered with success and the granted lifetime, which begins anew; none granted ends the session and has all its commands removed; an older one changes nothing. |
| `ResponderConduct.OnlyTimersAndRefreshes` | src/nr_session.cpp:359-382 | Otherwise a session ends, silently, if and only if its timer expires, and nothing else has any effect. |
| `Dispatcher.ProcessKeeps` | src/dispatcher.cpp:95-223 | After every event: every stored session is under its own id, not final and waiting for a running timer, and the metering process holds exactly what the stored sessions hold. |
| `Dispatcher.RunKeeps` | src/dispatcher.cpp:95-223 | The same over every finite run. |
| `Dispatcher.NodeDispatcher.CreateUniqueId` | src/session_manager.cpp:96-103 | The retry loop returns the first drawn id that is not in the table. |
| `Dispatcher.NodeDispatcher.ProcessEvent` | src/dispatcher.cpp:95-193 | Looking a session up or creating it, running it and removing it when it is final changes table and world as specified. |
| `NodeConduct.OthersStay` | src/dispatcher.cpp:140-193 | No event touches a session of another id. |
| `NodeConduct.StoredSessionActs` | src/dispatcher.cpp:144-184 | A stored session gets the events of its id, whatever they are, and is removed if and only if it ends in CLOSE. |
| `NodeConduct.WithoutSession` | src/dispatcher.cpp:108-138 | A query about routing changes nothing; octets that are no message are answered with one failure without a number; an event for nobody is dropped. |
| `NodeConduct.UserRequest` | src/dispatcher.cpp:206-208 | A request of the user makes an initiator under the free id, with the configured retries and hops, and its CONFIGURE is sent. |
| `NodeConduct.RequestPassing` | src/dispatcher.cpp:209-217 | A CONFIGURE for a node behind this one makes a forwarder with the configured limit, unless there is no lifetime to grant. |
| `NodeConduct.RequestEnding` | src/dispatcher.cpp:209-215 | A CONFIGURE for this node makes a responder with the configured limit exactly if it is granted. |
| `NodeRuns.NoLeakedRules` | src/ni_session.cpp:377-592 | After any run in which no removal is refused, a command is installed if and only if a stored session in METERING has it in its rule; sessions that ended left nothing, on every path of closing and after every partial installation. |
| `NodeRuns.OnlyRefusedRulesLeak` | src/dispatcher.cpp:327-343 | With refusals, exactly the refused commands may be left over. |
| `NodeRuns.TableEvolves` | src/dispatcher.cpp:95-223 | A stored session never changes its kind or its id; a new one is made only by a request to configure, under a free id. |
| `NodeRuns.CloseHandlersSeeConfigures` | src/nf_session.cpp:363-419 | The handlers of CLOSE only run on the event that creates the session, so the missing return in the forwarder's is unreachable. |
| `NodeRuns.StaleTimerChangesNothing` | include/events.h:559-571 | A timer that was stopped or restarted since changes nothing when it fires. |
| `NodeRuns.TimerDescends` | src/mnslp_timers.cpp:46-58 | Every timer that fires brings the whole node strictly nearer to being empty. |
| `NodeRuns.SessionsWait` | src/nf_session.cpp:495-516 | Every stored session has a timer running that is current. |
| `NodeRuns.SessionsAreTimed` | src/ni_session.cpp:500-504 | After any run every session has the retries, hops or limit of the configuration, and the timer it waits for was started for the seconds it should last: the response timeout, the refresh interval, or the lifetime. |
| `NodeRuns.SoftStateEnds` | src/nr_session.cpp:359-375 | If only timers fire, no more of them fire than the measure says, and when none is left no session is left. |
| `RefreshOnce.InitiatorNumbers` | src/ni_session.cpp:180-199 | One step numbers at most one new REFRESH, and all it sends are numbered consecutively from the CONFIGURE. |
| `RefreshOnce.InitiatorRunNumbers` | src/ni_session.cpp:487-520 | The same over every run of an initiator. |
| `RefreshOnce.ConfigureStartsNumbering` | src/ni_session.cpp:135-173 | The numbering starts with the CONFIGURE that the session sends. |
| `RefreshOnce.OneEvent` | src/nr_session.cpp:284-382 | One event of any kind at a responder: it applies a REFRESH exactly if it is newer than the last, and nothing else moves its number. |
| `RefreshOnce.AppliesNewest` | src/nr_session.cpp:292-355 | For every loss, repetition and order of refreshes within 2^31 numbers, and any other events in between, a responder applies exactly those that are newer than all it applied before, as long as it runs. |
| `RefreshOnce.SentIsNumbered` | src/ni_session.cpp:180-199 | Every REFRESH that the initiator sent has one of its numbers, seen from the number of its CONFIGURE. |
| `RefreshOnce.RefreshAtMostOnce` | src/nr_session.cpp:292-355 | End to end: if a responder accepts the CONFIGURE of an initiator, and then sees any events in which every REFRESH is one that this initiator sent, lost, repeated or reordered, the numbers it applies increase strictly: none is applied twice. |
| `RefreshOnce.NewestIncreases` | src/nr_session.cpp:311-315 | Newer than all before means strictly increasing. |
| `RefreshOnce.OldRefreshReturns` | src/msg/ntlp_msg.cpp:143-148 | The bound is sharp: 2^31 + 1 numbers later an old refresh is applied again. |
| `PathShares.ShareIsFirst` | src/session.cpp:161-205 | The objects a node takes are those for which it is the first node of the path that participates and accepts, in order. |
| `PathShares.SharesConserve` | src/ni_session.cpp:243-263 | The request is the disjoint union of all shares and the residual. |
| `Path.PathMeters` | src/ni_session.cpp:413-439 | On a path with any number of forwarders: the initiator enters METERING if and only if no object is left over and every node can install what it took; and then every node has installed its share and meters, and initiator and responder hold the minimum of the request and all limits. |
| `Path.WillingPathMeters` | src/session.cpp:161-205 | Where the metering process accepts everything, a session is set up if and only if every requested object is one that some node of the path participates for and accepts. |
| `PathSelection.EachTakesItsOwn` | src/session.cpp:161-205 | With the selection read by place on the path: every node takes exactly the objects that it is the first of the selected nodes to accept, in their order, and the others reach the responder. |
| `PathSelection.SetUpIff` | src/session.cpp:161-205 | Where everything can be installed, the session is set up if and only if every object is accepted by a selected node. |
| `PathSelection.SelectFirst` | include/msg/selection_metering_entities.h:45 | Selection 3: the initiator holds all it accepts, nobody else anything, and the rest is left over. |
| `PathSelection.SelectLast` | include/msg/selection_metering_entities.h:46 | Selection 4: every object reaches the responder, which holds all it accepts. |
| `PathSelection.SelectEnds` | include/msg/selection_metering_entities.h:47 | Selection 5: the initiator holds all it accepts, and the responder what it accepts of the rest. |
| `PathSelection.SelectEveryone` | include/msg/selection_metering_entities.h:43-44 | Selections 1 and 2: an object is held by the first node that accepts it. |
| `PathSelection.SelectNobody` | src/session.cpp:175-176 | Any other number: nobody holds anything. |
| `Path.PathIsShared` | src/nf_session.cpp:195-211 | What each node of the path holds after the CONFIGURE has passed: the objects for which it is the first that wants them; the residual is what nobody wants. |
| `Path.PathConserves` | src/nr_session.cpp:157-171 | The requested objects, as a multiset, are the sum of what the initiator, the forwarders and the responder took and the residual. |
| `Path.LeastIsMinimum` | src/nf_session.cpp:390-412 | The agreed lifetime is at most every limit. |
| `Path.LeastIsAttained` | src/nf_session.cpp:390-412 | It is the request or one of the limits. |
| `Path.PathLifetimes` | src/nr_session.cpp:204-247 | After set-up no forwarder holds less than the initiator, and none more than its own limit. |
| `PathRefresh.SetUpIsInStep` | src/nf_session.cpp:615-648 | After set-up every node has seen the initiator's number and could keep its lifetime. |
| `PathRefresh.RoundEqualizes` | src/nf_session.cpp:615-648 | One round of REFRESH and RESPONSE leaves every node of the path with exactly the initiator's lifetime and number, and every rule as it was. |
| `PathRefresh.RefreshEqualizes` | src/nr_session.cpp:298-329 | After every one of any number of rounds following the set-up, all nodes hold exactly the lifetime that was agreed. |
| `PathTeardown.TeardownGoesOut` | src/ni_session.cpp:536-549 | When the REFRESH of a teardown has reached the responder, both ends are closed and have had their commands removed, and every forwarder waits for the answer with its own still installed. |
| `PathTeardown.TeardownEndsPath` | src/nf_session.cpp:755-764 | When its answer is back, every node of the path is closed, and has had exactly the commands removed that it held. |
| `PathBooks.StepIsBooked` | src/dispatcher.cpp:260-343 | Every step of every kind of session keeps the books: the live commands are those the session holds and, of others, those that were there before. |
| `PathBooks.SessionLeavesNothing` | src/ni_session.cpp:536-549 | A whole session on a path of any length: set up, refreshed any number of times, torn down. Then every node is closed and has exactly the live commands that it had before. |

## Left out

- GIST and NTLP, NetMsg internals (octets are sequences here), locking, logging, printing, MRI contents, XML and HTTP, the daemon and the client program.
- NetFlow version 9, host-order mode, and vendor elements that the receiver does not know. A template withdrawal only appears as the error it ends in: `new_template` refuses a template without fields.
- Scope fields and string values: templates with scope fields are written and read as they are, but no round trip is claimed for them; the decoder rejects strings (src/msg/mnslp_ipfix_field.cpp:835-866).
- IpfixRoundTrip.RoundTrip: is about the octets of a first output of at most 65535, the width of the length field; what fits into the buffer of the program is a matter of IpfixSpace. Later outputs are in SecondOutputIsBare.
- Forwarder.NfSession.HandleMetering: for the event of NullRefreshIff the source has no defined behaviour, and the model closes the session without a message.
- What happens after a write past the end of the buffer, or after a `realloc` for which there is no memory: the model ends with `Overrun`, and takes `realloc` to succeed. The state that an output which throws leaves behind is not described.
- Aliasing between templates, records, rules and the fields that hold them: they are values here, since the source copies them. The sessions in the dispatcher's table are values too; their classes are proved separately.
- Ids above 65535: import is modelled for messages whose templates do not exhaust the 16-bit ids.
- Comparison of messages and values for equality: equality is structural here, and takes the grouping of records into account.
- Bodies of NOTIFY and OPTIONS messages, information codes with a response object type (refused at src/msg/information_code.cpp:131-133), and deserialization that skips bad objects, which the program never asks for.
- MnslpMsg.MnslpMessage.Serialize: a message without an object that it must write fails with `Missing`; in the source the call dereferences or returns nothing (src/msg/mnslp_response.cpp:137-150).
- check_authorization, which accepts everything (src/session.cpp:152-158), the proxy mode, and asynchronous reports to the user.
- Session.Services.Start: timers fire at most once and their ids are unique, as the timer module is not part of this model.
- Dispatcher.RunKeeps: a request with lifetime 0 is excluded, because `assert( r > 0 )` ends the program there (src/ni_session.cpp:237).
- PolicyRule.Installer.Install: objects and commands are visited in the order they were made; the source orders them by the text of their keys, which only affects the order of commands.
- ExportSelection.PackageIsLeast: strings are numbers that keep their alphabetic order; texts of commands and filter fields are left out.
- Path.PathMeters: each node receives the CONFIGURE and its answer once. A forwarder's resending and replacement branches (src/nf_session.cpp:470-488) are in its transition function and class, but break the conservation of objects and are outside of the path.
- PathRefresh.RefreshEqualizes: says nothing about how long a forwarder lives after a refresh, since its response timer keeps running; that is in ForwarderConduct.AnsweredRefreshTimesOut.
- PathTeardown.TeardownEndsPath: the REFRESH that a forwarder sends towards the responder when only its own share fails is in ForwarderConduct.EndSays, but is not followed along the path.
- Initiator.SetupWithinLifetime: the floating-point formulas of `setup_session` are exact integer ones, rounded up.
