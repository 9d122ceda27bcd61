# Dependency-Check parser plugin, modelled in Dafny

The plugin reads an OWASP Dependency-Check JSON report and passes the
results to a Fortify SSC host. It reads the document twice, forward only:

- The scan pass (`parseScan`) picks the report's metadata out of the
  top-level object: the host name from `reportSchema`, the engine version
  from the `engineVersion` field nested in `scanInfo`, and the scan date
  from `reportDate`.
- The record pass (`parseVulnerabilities`) walks `dependencies` and, for
  each dependency, its `vulnerabilities`. It reads fields into one mutable
  accumulator, a `DepVuln`, that is shared by all the vulnerabilities of a
  dependency. After each vulnerability object it hands the host one
  finished record, provided the accumulator holds a name.

Field names are resolved through the `VulnAttribute` dispatch table. The
host-side attribute definitions are the `CustomVulnAttribute` constants.

The model works on the parser's token stream (`Tokens`). Each loop of the
plugin is a recursive function over the tokens not yet read
(`RecordWalker`, `ScanMetadata`). Each loop also has a partner semantics
over a JSON value tree (`JsonTree`, `RecordReference`). The equivalence
theorems show that walking the serialisation of a tree, followed by
anything, gives the tree semantics and leaves exactly the tail unread. The
record-pass properties are stated on the tree side and carried to the
walker:

- unknown fields are ignored;
- nothing is reset between vulnerabilities;
- a dependency's records carry its `sha1` and file name;
- the structural failures.

Modules, in dependency order:

- `Common`: `Option`, `Result` and the exception kinds (`Fault`).
- `Tokens`: Jackson's token kinds, `getText`, and the plugin's `skipChildren`.
- `JsonTree`, `JsonFields`: JSON values, their serialisation, and "last field of a kind".
- `JavaStrings`: `String.split`, including the dropping of trailing empty strings.
- `VulnAttributes`, `CustomVulnAttributes`: the two enums and the name lookup.
- `DepVulns`: the accumulator, `GenPriority`, `setCWE` and `getInstanceId`.
- `VulnRecords`: the emit rule, `populateVulnerability`, and the field switches of `loadFinding` and `loadDependency`.
- `RecordWalker`, `RecordReference`, `RecordProperties`: the record pass.
- `ScanMetadata`: the scan pass.
- `Scenarios`: worked examples.

The model follows the code in four places where a reader of the report
format would expect something else:

- One might expect the vulnerability-level fields to be reset for each
  vulnerability. The code reuses one `DepVuln` for a whole dependency and
  never clears it (`RecordProperties.NoReset`).
- One might expect a record only for a non-empty name. The code checks only
  for null, so an empty name still produces a record (`VulnRecords.Emit`).
- A CWE text without a dash segment has no sensible normalisation. The code
  throws `ArrayIndexOutOfBoundsException` (`Fault.CweIndex`).
- One might expect a dependency's `description` to become the record's
  description. It does not, for two independent reasons. The lookup maps
  `"description"` to `CWE_DESCRIPTION` (the later constant with that name),
  so the dependency switch's `DESCRIPTION` case is unreachable
  (`VulnAttributes.GetDescription`). And even if it were reached, that case
  calls `setComment` (`DepChkParserPlugin.java` lines 247-248), not
  `setDescription`. Nothing in the plugin calls `setDescription`, so the
  accumulator's description stays null and no record carries the
  `DESCRIPTION` attribute (`VulnRecords.DepFieldWrites`,
  `RecordWalker.ParseVulnerabilities`).

The field loops never check that they stand on a field name. They ask the
parser for the current name and take the next token as the value. A value
the switch reads without skipping, such as an array where a name is
expected, therefore puts the loop out of step with the fields, and the loop
carries on. The model keeps Jackson's parsing context (`Tokens.CurrentName`)
so that `getCurrentName()` gives the same answer in that state. The
`Scenarios.ArrayNameRecord`, `Scenarios.ObjectNameRecord` and
`Scenarios.ArraySchemaScan` examples show what follows.

## Model

| member | source | states |
|---|---|---|
| Tokens.SkipTo | depchk-parser/src/main/java/com/thirdparty/DepChkParserPlugin.java:140-147 | Jackson's `skipChildren` stops on an end token strictly further on. It fails only as malformed input. |
| Tokens.SkipChildren | depchk-parser/src/main/java/com/thirdparty/DepChkParserPlugin.java:140-147 | On a start token, the cursor ends on an end token further on. On any other token, nothing moves. The only failure is malformed input. |
| Tokens.Text | depchk-parser/src/main/java/com/thirdparty/DepChkParserPlugin.java:291-320 | `getText` is a field's name, a scalar's text, and for a bracket token the bracket itself. `{` and `[` are told apart by their text. |
| Tokens.NextEntry | depchk-parser/src/main/java/com/thirdparty/DepChkParserPlugin.java:278-280 | The head of every field loop ends the loop exactly on `}`. Otherwise it needs one more token, the value. A field token names the entry, and any other token is named by `getCurrentName()` after it was read. It fails, as malformed input, only when the stream runs out or a field name is not followed by a value. |
| JsonTree.SkipOverValue | depchk-parser/src/main/java/com/thirdparty/DepChkParserPlugin.java:140-147 | Inside an open container, a complete nested value of any depth is passed over without changing where the skip ends. |
| JsonTree.SkipValue | depchk-parser/src/main/java/com/thirdparty/DepChkParserPlugin.java:140-147 | On the serialisation of any value followed by anything, `skipChildren` stops on the value's own last token and leaves exactly the tail. |
| JsonTree.ValueBalanced | depchk-parser/src/main/java/com/thirdparty/DepChkParserPlugin.java:163-165 | Reading a whole serialised value leaves the parsing context as it found it. |
| JsonTree.ValueIsNamed | depchk-parser/src/main/java/com/thirdparty/DepChkParserPlugin.java:278-280 | Once a field's value has been read to its last token, `getCurrentName()` answers that field's name, whatever the value holds. |
| JsonTree.ItemIsUnnamed | depchk-parser/src/main/java/com/thirdparty/DepChkParserPlugin.java:278-280 | Once an array item has been read to its last token, `getCurrentName()` answers null. |
| JsonFields.LastForCons | depchk-parser/src/main/java/com/thirdparty/DepChkParserPlugin.java:118-138 | A field in front decides the outcome only when no later field of the same kind exists. Later fields overwrite earlier ones. |
| JsonFields.LastForInsertion | depchk-parser/src/main/java/com/thirdparty/DepChkParserPlugin.java:118-138 | Inserting a field of another kind anywhere does not change which field of a kind is last. |
| JavaStrings.StripTrailingEmpty | depchk-parser/src/main/java/com/thirdparty/scan/DepVuln.java:136-138 | `split` keeps a prefix of the pieces. The result is empty or ends in a non-empty piece, and every dropped piece is empty. |
| JavaStrings.SplitAllHasText | depchk-parser/src/main/java/com/thirdparty/scan/DepVuln.java:136-138 | Some piece is non-empty exactly when the text holds a character other than the separator. |
| JavaStrings.SplitHasSecond | depchk-parser/src/main/java/com/thirdparty/scan/DepVuln.java:136-138 | `split` has a second piece exactly when the separator occurs and something other than the separator follows it. That piece is the text between the first and the next separator. |
| JavaStrings.SplitFirst | depchk-parser/src/main/java/com/thirdparty/scan/DepVuln.java:136-137 | The first piece is the text up to the first separator. `split` returns no piece only when that text is empty. |
| JavaStrings.Split | depchk-parser/src/main/java/com/thirdparty/scan/DepVuln.java:136-138 | `split` yields pieces free of the separator. Without a separator the text comes back whole. With one, the result is empty or ends in a non-empty piece. |
| VulnAttributes.DeclaredInOrder | depchk-parser/src/main/java/com/thirdparty/VulnAttribute.java:30-59 | The enum has 24 constants. `values()` lists each constant exactly once, at its ordinal. |
| VulnAttributes.FillLastWins | depchk-parser/src/main/java/com/thirdparty/VulnAttribute.java:66-69 | A name filled into the map in list order maps to the last constant with that name. Names no constant carries keep their earlier entry. |
| VulnAttributes.LastNamedIsLast | depchk-parser/src/main/java/com/thirdparty/VulnAttribute.java:66-69 | The constant found for a name carries that name, and no later constant in the list does. The result is absent exactly when no constant carries it. |
| VulnAttributes.FillInDeclarationOrder | depchk-parser/src/main/java/com/thirdparty/VulnAttribute.java:63-69 | Filling in declaration order maps each attribute name to a constant with that name, declared no earlier than any other with it. Any other name is absent. |
| VulnAttributes.LookupIsLastDeclared | depchk-parser/src/main/java/com/thirdparty/VulnAttribute.java:63-69 | The static lookup map has the same property. |
| VulnAttributes.Get | depchk-parser/src/main/java/com/thirdparty/VulnAttribute.java:79-85 | A constant that `get` returns carries the name asked for. |
| VulnAttributes.GetSpec | depchk-parser/src/main/java/com/thirdparty/VulnAttribute.java:79-85 | `get` returns null exactly for names no constant carries. Otherwise it returns a constant with that name, declared no earlier than any other with it. |
| VulnAttributes.Namesake | depchk-parser/src/main/java/com/thirdparty/VulnAttribute.java:30-59 | The namesake of a constant has the same name and is declared no earlier. |
| VulnAttributes.GetFindsNamesake | depchk-parser/src/main/java/com/thirdparty/VulnAttribute.java:75-85 | Looking up a constant's own name yields its namesake. |
| VulnAttributes.SameName | depchk-parser/src/main/java/com/thirdparty/VulnAttribute.java:30-59 | Two constants share a name exactly when they share a namesake. |
| VulnAttributes.GetName | depchk-parser/src/main/java/com/thirdparty/VulnAttribute.java:31-50 | `PROJECT_NAME` and `NAME` are both spelled `name`, and the lookup of `name` yields `VUL_NAME`. |
| VulnAttributes.GetDescription | depchk-parser/src/main/java/com/thirdparty/VulnAttribute.java:40-59 | The lookup of `description` yields `CWE_DESCRIPTION`, and no name at all yields `DESCRIPTION`. |
| VulnAttributes.RoundTrip | depchk-parser/src/main/java/com/thirdparty/VulnAttribute.java:63-85 | `get(c.attrName())` returns `c` for every constant except `PROJECT_NAME`, `DESCRIPTION` and `NAME`, which later constants with the same name shadow. |
| CustomVulnAttributes.Unwrap | depchk-parser/src/main/java/com/thirdparty/CustomVulnAttribute.java:26-48 | Any constant found for a dispatch-table constant wraps that constant. |
| CustomVulnAttributes.WrapUnwrap | depchk-parser/src/main/java/com/thirdparty/CustomVulnAttribute.java:26-48 | Every host attribute except `CWE_DESCRIPTION` is recovered from the dispatch-table constant it wraps. Five dispatch-table constants have no host attribute. |
| CustomVulnAttributes.NameIsWireName | depchk-parser/src/main/java/com/thirdparty/CustomVulnAttribute.java:26-67 | A host attribute's name is a JSON field name that looks up to the namesake of the wrapped constant. For `DESCRIPTION`, `NAME` and `CWE_DESCRIPTION`, the lookup yields a different constant. |
| CustomVulnAttributes.NamesakeOfWrapped | depchk-parser/src/main/java/com/thirdparty/CustomVulnAttribute.java:35-46 | `DESCRIPTION` and `CWE_DESCRIPTION` both resolve to `CWE_DESCRIPTION`, and `NAME` and `VUL_NAME` both resolve to `VUL_NAME`. All other host attributes resolve to their own constant. |
| CustomVulnAttributes.WrappedInjective | depchk-parser/src/main/java/com/thirdparty/CustomVulnAttribute.java:35-46 | Distinct host attributes wrap distinct constants, except `DESCRIPTION` and `CWE_DESCRIPTION`, which both wrap `DESCRIPTION`. |
| CustomVulnAttributes.NameCollisions | depchk-parser/src/main/java/com/thirdparty/CustomVulnAttribute.java:26-67 | The only host attributes that share a name are the description pair and the name pair. |
| CustomVulnAttributes.Types | depchk-parser/src/main/java/com/thirdparty/CustomVulnAttribute.java:26-67 | The types are decimal for the CVSS score, date for the scan date, and long string for file path and both descriptions. Everything else is a plain string. |
| DepVulns.ValueOf | depchk-parser/src/main/java/com/thirdparty/scan/DepVuln.java:26-29 | `valueOf` only returns the priority spelled exactly as the text. |
| DepVulns.PrioritiesClosed | depchk-parser/src/main/java/com/thirdparty/scan/DepVuln.java:26-29 | There are exactly four priorities, each listed once. |
| DepVulns.ValueOfName | depchk-parser/src/main/java/com/thirdparty/scan/DepVuln.java:26-29 | `valueOf(p.name())` is `p`. `valueOf` throws exactly for texts that are no priority's name, case-sensitively. |
| DepVulns.Write | depchk-parser/src/main/java/com/thirdparty/scan/DepVuln.java:61-128 | A setter changes only its own field. Every other field, the five CVSS fields included, keeps its value. |
| DepVulns.ReadWrite | depchk-parser/src/main/java/com/thirdparty/scan/DepVuln.java:61-128 | The getter returns what its setter stored, other getters are unaffected, and storing a field's current value changes nothing. |
| DepVulns.FreshIsNull | depchk-parser/src/main/java/com/thirdparty/scan/DepVuln.java:31-56 | Every field of a new `DepVuln` is null. |
| DepVulns.LastWriteWins | depchk-parser/src/main/java/com/thirdparty/scan/DepVuln.java:61-128 | After any sequence of setter calls, each getter returns the last value written to its field, or the original if the field was never written. |
| DepVulns.NormalizeCwe | depchk-parser/src/main/java/com/thirdparty/scan/DepVuln.java:134-143 | The empty text stays empty. Any other text either becomes one starting with `CWE ID ` or throws the index exception. |
| DepVulns.NormalizeCweIsCweId | depchk-parser/src/main/java/com/thirdparty/scan/DepVuln.java:134-143 | On every input, the split-based `setCWE` normalisation agrees with a split-free definition. That definition takes the first word, then the text between its first dash and the next. It fails when no character other than a dash follows the first dash. |
| DepVulns.NormalizeWellFormed | depchk-parser/src/main/java/com/thirdparty/scan/DepVuln.java:134-139 | For `tag-id` followed by nothing, a space or a dash, the result is `CWE ID id`, whatever the tag. For example, `NVD-CWE-Other` gives `CWE ID CWE`. |
| DepVulns.SetCwe | depchk-parser/src/main/java/com/thirdparty/scan/DepVuln.java:134-143 | `setCWE` succeeds exactly when the normalisation does. It then stores the normalised text and changes no other field. |
| DepVulns.InstanceId | depchk-parser/src/main/java/com/thirdparty/scan/DepVuln.java:166-168 | The instance id is the unique id as Java prints it, a dash, then the name as Java prints it. |
| DepVulns.InstanceIdKey | depchk-parser/src/main/java/com/thirdparty/scan/DepVuln.java:166-168 | When the unique ids contain no dash, two instance ids are equal exactly when the unique ids and the names, each printed as Java prints them (`null` for null), are equal. |
| VulnRecords.CustomBag | depchk-parser/src/main/java/com/thirdparty/DepChkParserPlugin.java:372-396 | A custom attribute is set exactly when its accumulator field is non-null, and it holds that field's text. |
| VulnRecords.Populate | depchk-parser/src/main/java/com/thirdparty/DepChkParserPlugin.java:346-398 | A null priority throws a NullPointerException. Otherwise the record has the fixed classification, a mapped category and CWE attribute present together (exactly when the CWE is non-null), and the builtin fields copied. |
| VulnRecords.Emit | depchk-parser/src/main/java/com/thirdparty/DepChkParserPlugin.java:261-272 | A null name emits nothing. A non-null name appends exactly one record, the populated accumulator. Emitting fails exactly when the name is non-null and the priority null. |
| VulnRecords.SeverityOf | depchk-parser/src/main/java/com/thirdparty/DepChkParserPlugin.java:322-327 | The severity is the priority whose name is the text when one exists. Otherwise it is Medium. |
| VulnRecords.SeverityMapping | depchk-parser/src/main/java/com/thirdparty/DepChkParserPlugin.java:322-330 | Severity is the priority spelled exactly as the text, and Medium exactly when no priority is spelled that way. |
| VulnRecords.FindingSlot | depchk-parser/src/main/java/com/thirdparty/DepChkParserPlugin.java:291-320 | Exactly seven switch cases copy text into a plain field. None of them is a dependency-level field. |
| VulnRecords.FindingField | depchk-parser/src/main/java/com/thirdparty/DepChkParserPlugin.java:278-342 | The `loadFinding` switch acts exactly on its ten cases. Only `cwe` (bad index) and `cvssScore` (bad number) can throw, and no case touches the unique id, file name, description or comment. |
| VulnRecords.FindingFieldWrites | depchk-parser/src/main/java/com/thirdparty/DepChkParserPlugin.java:291-330 | `name`, `description`, `severity`, `cwe` and `cvssScore` each write their own field and nothing else. |
| VulnRecords.DepField | depchk-parser/src/main/java/com/thirdparty/DepChkParserPlugin.java:223-257 | The `loadDependency` switch never touches a vulnerability-level field, the five CVSS fields included. |
| VulnRecords.DepFieldWrites | depchk-parser/src/main/java/com/thirdparty/DepChkParserPlugin.java:228-249 | `sha1` sets the unique id, and `fileName` and `filePath` both set the file name. No field name reaches the comment. |
| RecordWalker.FindingValue | depchk-parser/src/main/java/com/thirdparty/DepChkParserPlugin.java:279-342 | One vulnerability field never moves backwards and never changes a dependency-level field. A null name finds no switch case and its value is skipped. It fails only on malformed input, a bad CWE or a bad number. |
| RecordWalker.FindingFields | depchk-parser/src/main/java/com/thirdparty/DepChkParserPlugin.java:274-344 | The same holds over a whole vulnerability object, which consumes at least its closing brace. Any token at a field position other than `}` is taken as a field, named by the parser's current name. |
| RecordWalker.VulnArray | depchk-parser/src/main/java/com/thirdparty/DepChkParserPlugin.java:212-219 | Records are only appended. Every new record is standard and carries the dependency's file name, its unique id, and an instance id that starts with that unique id. Any element that is not an object stops the pass with the structural fault. |
| RecordWalker.DepValue | depchk-parser/src/main/java/com/thirdparty/DepChkParserPlugin.java:204-257 | One dependency field only appends standard records. They carry `DESCRIPTION` exactly when the accumulator holds a description. |
| RecordWalker.DepFields | depchk-parser/src/main/java/com/thirdparty/DepChkParserPlugin.java:195-259 | The same holds over a whole dependency object. A field position whose current name is null throws the NullPointerException of `fieldName.equals`. |
| RecordWalker.DepArray | depchk-parser/src/main/java/com/thirdparty/DepChkParserPlugin.java:171-180 | The `dependencies` array only appends standard records without `DESCRIPTION`. Any element that is not an object stops the pass with the structural fault. |
| RecordWalker.RootFields | depchk-parser/src/main/java/com/thirdparty/DepChkParserPlugin.java:163-184 | The top-level loop has the same property. A null current name throws the NullPointerException of `fieldName.equals`. |
| RecordWalker.ParseVulnerabilities | depchk-parser/src/main/java/com/thirdparty/DepChkParserPlugin.java:102-185 | A document that does not start with an object fails the structural check with no records. Every record emitted is standard and has no `DESCRIPTION` attribute. |
| RecordReference.FindingValueMatches | depchk-parser/src/main/java/com/thirdparty/DepChkParserPlugin.java:279-342 | On one serialised field, `loadFinding`'s step computes the tree semantics of the field and leaves exactly the tail. |
| RecordReference.FindingFieldsMatch | depchk-parser/src/main/java/com/thirdparty/DepChkParserPlugin.java:274-344 | The same holds for a whole vulnerability object, followed by anything. |
| RecordReference.VulnItemMatches | depchk-parser/src/main/java/com/thirdparty/DepChkParserPlugin.java:212-216 | One element of `vulnerabilities` is read, then offered to the emit rule, as the tree semantics says. |
| RecordReference.VulnArrayMatches | depchk-parser/src/main/java/com/thirdparty/DepChkParserPlugin.java:212-219 | The same holds for the whole `vulnerabilities` array, including the records emitted. |
| RecordReference.DepValueMatches | depchk-parser/src/main/java/com/thirdparty/DepChkParserPlugin.java:204-257 | One dependency field, `vulnerabilities` or any other, follows the tree semantics. |
| RecordReference.DepFieldsMatch | depchk-parser/src/main/java/com/thirdparty/DepChkParserPlugin.java:195-259 | The same holds for a whole dependency object. |
| RecordReference.DepItemMatches | depchk-parser/src/main/java/com/thirdparty/DepChkParserPlugin.java:171-178 | One element of `dependencies` is read into a fresh accumulator, as the tree semantics says. |
| RecordReference.DepArrayMatches | depchk-parser/src/main/java/com/thirdparty/DepChkParserPlugin.java:171-180 | The same holds for the whole `dependencies` array. |
| RecordReference.RootValueMatches | depchk-parser/src/main/java/com/thirdparty/DepChkParserPlugin.java:163-183 | One top-level field follows the tree semantics. |
| RecordReference.RootFieldsMatch | depchk-parser/src/main/java/com/thirdparty/DepChkParserPlugin.java:163-184 | The same holds for the whole top-level loop. |
| RecordReference.ParseMatches | depchk-parser/src/main/java/com/thirdparty/DepChkParserPlugin.java:102-185 | The record pass over any serialised report, followed by anything, yields the tree semantics' records and fault. |
| RecordReference.TreesNeverMalformed | depchk-parser/src/main/java/com/thirdparty/DepChkParserPlugin.java:160-185 | A serialised document whose read fields hold scalars (the `Flat` condition), followed by anything, never makes the record pass fail as malformed input. |
| RecordProperties.FindingAppend | depchk-parser/src/main/java/com/thirdparty/DepChkParserPlugin.java:278-343 | Reading a vulnerability's fields `a + b` is reading `a`, then `b` from the resulting state. |
| RecordProperties.DepAppend | depchk-parser/src/main/java/com/thirdparty/DepChkParserPlugin.java:198-258 | The same holds for a dependency's fields, including the records emitted. |
| RecordProperties.RootAppend | depchk-parser/src/main/java/com/thirdparty/DepChkParserPlugin.java:163-184 | The same holds for the top-level fields. |
| RecordProperties.FindingInsertion | depchk-parser/src/main/java/com/thirdparty/DepChkParserPlugin.java:281-341 | A vulnerability field the switch does not read changes nothing, whatever its value and wherever it appears. |
| RecordProperties.FindingFieldsInsertion | depchk-parser/src/main/java/com/thirdparty/DepChkParserPlugin.java:274-344 | The same holds for `loadFinding` on tokens. |
| RecordProperties.DepInsertion | depchk-parser/src/main/java/com/thirdparty/DepChkParserPlugin.java:220-256 | A dependency field other than `vulnerabilities` that the switch does not act on changes nothing. |
| RecordProperties.DepFieldsInsertion | depchk-parser/src/main/java/com/thirdparty/DepChkParserPlugin.java:195-259 | The same holds for `loadDependency` on tokens. |
| RecordProperties.RootInsertion | depchk-parser/src/main/java/com/thirdparty/DepChkParserPlugin.java:163-184 | A top-level field other than `dependencies` changes nothing. |
| RecordProperties.ParseInsertion | depchk-parser/src/main/java/com/thirdparty/DepChkParserPlugin.java:160-185 | The same holds for the record pass over a whole document. |
| RecordProperties.MemberKeepsSlot | depchk-parser/src/main/java/com/thirdparty/DepChkParserPlugin.java:287-342 | A vulnerability field leaves every accumulator field that its switch case does not write. |
| RecordProperties.FindingKeepsSlot | depchk-parser/src/main/java/com/thirdparty/DepChkParserPlugin.java:278-343 | Over a whole object, an accumulator field that no member writes keeps its value. |
| RecordProperties.NoReset | depchk-parser/src/main/java/com/thirdparty/DepChkParserPlugin.java:189-272 | The accumulator is shared. A second vulnerability without a name re-emits the first one's instance id, and without a `cwe` it inherits the first one's CWE. |
| RecordProperties.DepMemberState | depchk-parser/src/main/java/com/thirdparty/DepChkParserPlugin.java:228-246 | One dependency field sets the unique id if it is `sha1`, and the file name if it is `fileName` or `filePath`, each from the text after skipping. |
| RecordProperties.DepStateAfter | depchk-parser/src/main/java/com/thirdparty/DepChkParserPlugin.java:195-259 | After a dependency's fields, the unique id comes from the last `sha1` and the file name from the last `fileName` or `filePath`. Where there is none, the earlier value remains. |
| RecordProperties.RecordsCarryEarlierFields | depchk-parser/src/main/java/com/thirdparty/DepChkParserPlugin.java:195-272 | The records of a `vulnerabilities` field carry the file name and the unique id read before it, as the `sha1` attribute's value and as the instance id's prefix. They stay in front of whatever later fields emit. |
| RecordProperties.StructuralChecks | depchk-parser/src/main/java/com/thirdparty/DepChkParserPlugin.java:166-215 | A non-array `dependencies` or `vulnerabilities` value stops the pass with the structural fault and the records so far. So does a non-object element of either array. |
| RecordProperties.ElementChecks | depchk-parser/src/main/java/com/thirdparty/DepChkParserPlugin.java:171-215 | In either array, any token other than `{` or `]` at an element position stops the pass with the structural fault and the records so far. This includes a `}` or a field name left there by a loop out of step. |
| ScanMetadata.EngineVersionFields | depchk-parser/src/main/java/com/thirdparty/DepChkParserPlugin.java:118-138 | `getEngineVersion` consumes at least its closing brace and fails only on malformed input. A token at a field position other than `}` is taken as a field, named by the parser's current name. |
| ScanMetadata.RootMeta | depchk-parser/src/main/java/com/thirdparty/DepChkParserPlugin.java:72-100 | The top-level loop of the scan pass consumes at least its closing brace and fails only on malformed input. A token at a field position other than `}` is taken as a field, named by the parser's current name. |
| ScanMetadata.ParseScan | depchk-parser/src/main/java/com/thirdparty/DepChkParserPlugin.java:65-116 | A document that does not start with an object fails the structural check. Otherwise the only failure is malformed input. |
| ScanMetadata.EngineVersionMatches | depchk-parser/src/main/java/com/thirdparty/DepChkParserPlugin.java:118-138 | On a serialised `scanInfo` object, the engine version is the text of its last `engineVersion` field, or null. |
| ScanMetadata.OverlayCons | depchk-parser/src/main/java/com/thirdparty/DepChkParserPlugin.java:75-99 | Applying one top-level field and then the rest is applying the whole list. |
| ScanMetadata.RootMemberStep | depchk-parser/src/main/java/com/thirdparty/DepChkParserPlugin.java:75-99 | One top-level field sets the host name, engine version or scan date, or is skipped, and the loop resumes right after its value. |
| ScanMetadata.RootMetaMatches | depchk-parser/src/main/java/com/thirdparty/DepChkParserPlugin.java:72-100 | On a serialised root object, each setting comes from the last field of its kind. |
| ScanMetadata.ParseScanMatches | depchk-parser/src/main/java/com/thirdparty/DepChkParserPlugin.java:65-116 | The scan pass over a serialised report, followed by anything, succeeds with the last field of each kind. |
| ScanMetadata.ParseScanInsertion | depchk-parser/src/main/java/com/thirdparty/DepChkParserPlugin.java:75-99 | A top-level field other than the three, `dependencies` included, does not change the scan pass's outcome. |
| Scenarios.CweExample | depchk-parser/src/main/java/com/thirdparty/scan/DepVuln.java:134-143 | `CWE-79` becomes `CWE ID 79`, and the empty text stays empty. |
| Scenarios.CweWithoutDash | depchk-parser/src/main/java/com/thirdparty/scan/DepVuln.java:136-139 | A non-empty text without a dash makes `setCWE` throw. |
| Scenarios.CweTrailingDash | depchk-parser/src/main/java/com/thirdparty/scan/DepVuln.java:136-139 | A tag followed by a bare dash makes `setCWE` throw, because `split` drops the trailing empty piece. |
| Scenarios.CweLeadingSpace | depchk-parser/src/main/java/com/thirdparty/scan/DepVuln.java:136-139 | A leading space makes `setCWE` throw, whatever follows. |
| Scenarios.FindingsRead | depchk-parser/src/main/java/com/thirdparty/DepChkParserPlugin.java:212-219 | Two vulnerabilities in a row emit two records. The second inherits the first one's CWE. |
| Scenarios.DependencyRead | depchk-parser/src/main/java/com/thirdparty/DepChkParserPlugin.java:195-259 | A dependency with a file name, a `sha1` and two vulnerabilities emits two records built on that file name and unique id. |
| Scenarios.ReportRecords | depchk-parser/src/main/java/com/thirdparty/DepChkParserPlugin.java:160-272 | A small report yields two records. Their instance ids are `sha1-name`, their priorities are High and Low, and they share the first vulnerability's CWE. |
| Scenarios.ReportScan | depchk-parser/src/main/java/com/thirdparty/DepChkParserPlugin.java:72-138 | The same report yields its schema as host name and its nested engine version, and no scan date. |
| Scenarios.ArrayNameFinding | depchk-parser/src/main/java/com/thirdparty/DepChkParserPlugin.java:278-292 | A vulnerability whose name holds an array gets the name `[`. The array's item is met where a field should be, is named null and skipped with the `]`, and the object's `}` still ends the vulnerability. |
| Scenarios.UnnamedItem | depchk-parser/src/main/java/com/thirdparty/DepChkParserPlugin.java:278-284 | The array item met at a field position has a null name and finds no switch case, so the next token is skipped as its value. |
| Scenarios.UnidentifiedRecords | depchk-parser/src/main/java/com/thirdparty/scan/DepVuln.java:166-168 | Without a `sha1`, the instance ids of records named `[` and `{` are `null-[` and `null-{`. |
| Scenarios.ArrayNameRecord | depchk-parser/src/main/java/com/thirdparty/DepChkParserPlugin.java:160-292 | The report `{"dependencies":[{"vulnerabilities":[{"severity":"High","name":[x]}]}]}` completes with one High record, whose instance id is `null-[`. |
| Scenarios.ObjectNameFinding | depchk-parser/src/main/java/com/thirdparty/DepChkParserPlugin.java:212-216 | When the name holds an object, that object's `}` ends the vulnerability. The record is emitted, and the real `}` then fails `assertStartObject`. |
| Scenarios.ObjectNameRecord | depchk-parser/src/main/java/com/thirdparty/DepChkParserPlugin.java:160-292 | The same report with the name holding a one-field object stops with the structural fault, keeping one High record whose instance id is `null-{`. |
| Scenarios.SchemaItem | depchk-parser/src/main/java/com/thirdparty/DepChkParserPlugin.java:75-80 | In the scan pass, the item of an array read as `reportSchema` is named null and skipped with the `]`. |
| Scenarios.ArraySchemaScan | depchk-parser/src/main/java/com/thirdparty/DepChkParserPlugin.java:65-100 | The scan pass on `{"reportSchema":[x],k:y}` succeeds with host name `[` and is back in step for the next field. |

## Left out

- The Jackson lexer is replaced by a token sequence, and the model accepts any sequence. Jackson's lexer would reject some of them first, such as a field name inside an array or an unmatched end token. The model gives them the plugin's own outcome.
- End of input inside the root object is the `Malformed` fault. A field name not followed by a value is `Malformed` as well. In the code, inside an open container Jackson throws `JsonEOFException`, and a field name without a value is rejected by its lexer. Once the root has closed, `nextToken()` returns null, and every loop then throws a NullPointerException before it reads again: in `skipChildren`'s switch (`DepChkParserPlugin.java` line 141), in the log calls at lines 172, 205 and 213, or in `fieldName.equals` at line 166. The model gives `Malformed` for all of these.
- The log statements pass the concatenated field name and `sha1` text as a `String.format` pattern (`DepChkParserPlugin.java` lines 202 and 217). A `%` that does not start `%%` or `%n` would throw. At line 217 that happens after the record was already emitted. The model treats all logging as having no effect.
- The scan date is kept as the raw text of `reportDate`. `DateDeserializer` is not part of this model.
- `Float.parseFloat` is the parameter `parses`, which says whether a text parses. The impact is kept as the text that parsed, not as a float.
- The Fortify plugin API (`ScanBuilder`, `VulnerabilityHandler`, `StaticVulnerabilityBuilder`) is represented by the records and metadata the passes return. Its `Priority` enum is assumed to have the same four names as `GenPriority`, so the `IllegalArgumentException` catch in `populateVulnerability` never fires.
- VulnRecords.Emit: when `populateVulnerability` throws, the host has already started a vulnerability that is never completed. The model records no vulnerability in that case.
- DepVulns.SetCwe: `setCWE` compares its argument with `""` by reference. The model compares by content, which matches the code for the interned empty text.
- The `DepVuln` fields no core path reads or writes (category, categoryId, confidence, the CVSS score string, the date fields) are not modelled. Nor are `getCWE`'s and the other getters' Java-level details beyond their values.
- Input-stream selection and resource handling in `parseJson`, `completeScan`, and the plugin lifecycle hooks (`start`, `stop`, `getVulnerabilityAttributesClass`) are not modelled.
- RecordReference.ParseMatches: the equivalence theorems assume that fields the switches read hold scalars (the `Flat` predicates). The walker itself handles every shape. On a nested value it reads the text of the token the cursor rests on and carries on out of step, as the code does. No theorem characterises that state in general; the `Scenarios` examples show it on particular documents.
- RecordReference.TreesNeverMalformed: it holds only under the same `Flat` condition. Outside it, a loop put out of step by a nested value may consume the closing tokens of the enclosing containers and reach the end of input, which is `Malformed`.
- ScanMetadata.ParseScanMatches: the same shape assumption applies to `reportSchema`, `reportDate` and `scanInfo`.
- RecordWalker.ParseVulnerabilities: an exception is returned as an `Aborted` outcome with the records completed before it. It is not propagated.
