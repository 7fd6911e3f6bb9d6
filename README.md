# zotzen-cli create flow, in Dafny

zotzen-cli ties a Zotero item (a citation record) to a Zenodo deposit (an
archive record). It does this through two command-line helpers: the zotero
helper (`node bin/zotero-cli.js`) and the zenodo helper (`python
zenodo-cli.py`). This project models the create path of the two scripts,
`zotzen.js` and its earlier form `index.js`, and proves properties of the
model.

The create path runs these steps:

1. It fetches the Zotero report template and sets its `title`, or in
   `zotzen.js` it creates the item from a `--json` file instead.
2. It creates the item.
3. It reads the deposit template.
4. It points the template's `related_identifiers[0].identifier` at the
   item's `zotero://select` link. It sets `title` and `description`.
5. It creates the deposit.
6. It reads `DOI`, `URL` and `RecordId` out of the zenodo helper's text
   report.
7. It writes `{extra: <doi>}` back to the item.
8. It prints both identities, the Zotero ID as `library.id:key`. In
   `zotzen.js`, `--open` also opens the two links.

Modules:

- `JsStrings`: the JavaScript string methods the scripts chain:
  - `indexOf`, and `substr` with a negative start;
  - `split` on one character, and `join`;
  - `trim` over the ECMAScript WhiteSpace and LineTerminator set;
  - `replace` with a string pattern, which replaces the first occurrence
    only.
- `JsonValues`: JSON documents and paths into them. A property write
  follows sloppy-mode JavaScript:
  - on null it throws a TypeError;
  - on an object it sets the member;
  - on undefined it throws a TypeError as well;
  - on a string, number or boolean it is lost;
  - on an array it is lost too: the names written are not indices, and the serialized array does not show them;
  - writing `undefined` leaves the member out of the serialized document.
- `ZenodoReport`: `parseFromZenodoResponse`.
- `ZoteroLinks`: the select-link rewrite and the printed compound ID.
- `Payloads`: the three JSON documents written to the helpers' tmp files.
- `CreateFlow`: the helpers' possible answers, and the commands a run
  issues. It also holds the part both scripts share once the deposit
  exists: the update, the printed lines and the opened links.
- `ZotzenCli` and `IndexCli`: the two scripts' `zotzenCreate` and their
  top-level guards.

The helpers are not modelled. Each answer they can give is a parameter (a
`Helpers` value), and None stands for a command that exits non-zero or
whose output `JSON.parse` rejects. A run is described by a `Run` record:
the commands issued in order, the item and report obtained, the lines
printed, the links opened, and the failure that stopped it.

Two behaviours of the code are easy to misread:

- A report field is read from the first occurrence of `Key:` anywhere in
  the report, not from a line that begins with it. A `ConceptDOI:` line
  before the `DOI:` line therefore supplies the DOI
  (`ZenodoReport.UnanchoredMatch`).
- The item's `extra` field receives the bare DOI as its whole value, not
  `DOI: <doi>` (`CreateFlow.UpdateStoresBareDoi`).

The two scripts hold no linkage, sync or attachment logic.

## Model

| member | source | states |
|---|---|---|
| JsStrings.IndexOf | zotzen.js:56 | the result is -1 or a position where the pattern occurs |
| JsStrings.IndexFromIsFirst | index.js:47 | the search skips no occurrence between its start and the position it reports |
| JsStrings.IndexOfIsFirst | zotzen.js:56 | no occurrence comes before the reported one, and -1 is reported exactly when the pattern does not occur |
| JsStrings.Substr | index.js:47 | `substr(start)` keeps all but the first `start` characters for a non-negative start, and the last `-start` characters for a negative one, clamped to the string |
| JsStrings.SubstrIsSuffix | zotzen.js:56 | what `substr` keeps is the end of the string |
| JsStrings.Split | zotzen.js:57-58 | `split` on one character gives at least one piece |
| JsStrings.SplitPiecesAvoidSeparator | index.js:48-49 | no piece of a split holds the separator |
| JsStrings.JoinSplit | index.js:49-51 | joining the pieces of a split with the same character gives back the string |
| JsStrings.SplitWithoutSeparator | zotzen.js:57 | a string without the separator splits into itself alone |
| JsStrings.SplitAtFirst | index.js:48-49 | splitting `p + c + t` gives `p` followed by the pieces of `t` |
| JsStrings.Join | zotzen.js:60 | `join` puts exactly one separator between each two neighbouring pieces, so its length is the pieces' total plus one less than their number; SplitJoin and JoinSplit state it as the inverse of `split` |
| JsStrings.SplitJoin | zotzen.js:58-60 | splitting the join of separator-free pieces gives back the pieces |
| JsStrings.HeadAndTailOfSplit | index.js:49-51 | for `p + c + t` with `p` free of `c`, piece 0 is `p` and the rest, joined, is `t` (the `.slice(1).join(':')` step) |
| JsStrings.LeadingWhitespace | zotzen.js:61 | the count `trim` drops at the front covers only whitespace and stops at the first other character |
| JsStrings.TrailingWhitespace | zotzen.js:61 | where `trim` cuts at the back: everything after it is whitespace, and the character before it is not |
| JsStrings.TrimStart | zotzen.js:61 | what is left after the leading whitespace is dropped does not start with whitespace |
| JsStrings.TrimEnd | zotzen.js:61 | what is left after the trailing whitespace is dropped does not end with whitespace |
| JsStrings.Trim | index.js:52 | the result neither starts nor ends with whitespace and is no longer than the input |
| JsStrings.LeadingWhitespacePadded | zotzen.js:61 | whitespace before a text that starts with something else is exactly what is dropped |
| JsStrings.TrailingWhitespacePadded | zotzen.js:61 | whitespace after a text that ends with something else is exactly what is dropped |
| JsStrings.TrimPadded | index.js:52 | trimming a text padded with whitespace on both sides gives the text, whatever it holds inside |
| JsStrings.TrimLeadingSpace | zotzen.js:61 | the single space after `Key:` is trimmed away from a value that does not start or end with whitespace |
| JsStrings.ReplaceFirst | zotzen.js:94-97 | `replace` returns the string unchanged when the pattern does not occur; otherwise the replacement stands where the first occurrence stood and the length changes by the difference of the two |
| JsStrings.ReplaceAbsent | zotzen.js:94-97 | `replace` leaves a string without the pattern unchanged |
| JsStrings.ReplacePrefix | index.js:71-74 | `replace` on a string that starts with the pattern swaps exactly that prefix and keeps the rest |
| JsonValues.Assign | zotzen.js:76 | the written member holds the new value, or is absent when the value is undefined; every other member keeps its presence and value |
| JsonValues.SetMember | zotzen.js:86-88 | a property write throws exactly on null or undefined, sets the member on an object, and leaves any other value unchanged |
| JsonValues.ElementZero | zotzen.js:86 | `x[0]` is found only in an array, an object or a string: in an array exactly when it is not empty, in an object exactly when it has a member `"0"` |
| JsonValues.WithElementZero | zotzen.js:86 | after the write, `x[0]` reads the written value in an array or object, every other element or member is kept, and a string is left as it was |
| ZenodoReport.ParseFromZenodoResponse | zotzen.js:54-62 | the extracted value neither starts nor ends with whitespace |
| ZenodoReport.FirstOccurrenceValue | zotzen.js:54-62 | the value is the trimmed rest of the line after the first `key:` anywhere in the report. Colons in the value are kept, and later lines are ignored |
| ZenodoReport.MissingKeyYieldsEmpty | index.js:45-53 | a report without `key:` gives the empty string, because `indexOf` gives -1 and `substr(-1)` leaves the last character, which contributes nothing |
| ZenodoReport.SpacedLineValue | zotzen.js:100-101 | a `Key: value` line gives back the value exactly when the value has no surrounding whitespace |
| ZenodoReport.UrlValueKeepsColons | zotzen.js:101 | a `URL: <url>` line gives back the whole URL, the colons of `https://` included, whatever follows it, when nothing before it holds a `U` (as the `DOI:` line does not) |
| ZenodoReport.UnanchoredMatch | index.js:84 | a `ConceptDOI: <x>` line supplies `x` as the DOI, whatever follows it (a later `DOI:` line included), when nothing before it holds a `D` |
| ZoteroLinks.SelectLink | zotzen.js:94-97 | an href without the API prefix is kept; otherwise the select link is shorter by the difference of the two prefixes (SelectLinkOfApiHref and SelectLinkRewritesFirstOccurrence give its contents) |
| ZoteroLinks.SelectLinkOfApiHref | zotzen.js:94-97 | an API self link `https://api.zotero.org<path>` becomes `zotero://select<path>` |
| ZoteroLinks.SelectLinkRewritesFirstOccurrence | index.js:71-74 | only the first occurrence of the API prefix is rewritten; the text around it, later occurrences included, is kept |
| ZoteroLinks.SelectLinkWithoutApiPrefix | zotzen.js:94-97 | an href without the API prefix is used unchanged as the select link |
| ZoteroLinks.DigitChar | zotzen.js:112 | a digit value becomes the character that denotes it |
| ZoteroLinks.Decimal | index.js:95 | a library id prints as a nonempty string of decimal digits, with no leading zero unless the id is 0 |
| ZoteroLinks.DecimalRoundTrip | zotzen.js:112 | the printed digits denote the library id |
| ZoteroLinks.ZoteroId | zotzen.js:112 | the printed ID starts with a digit of the library id and ends with a colon followed by the item key |
| ZoteroLinks.ZoteroIdSplits | zotzen.js:111-113 | `library.id:key`, split at its first colon, gives back the library id and the item key, whatever the key holds |
| Payloads.FillItemTemplate | zotzen.js:75-76 | setting the title throws exactly when the template is null, and is lost on a template that is not an object |
| Payloads.ItemTemplateChangesOnlyTitle | index.js:61-62 | on an object template the title becomes the given one, and every other value of the template is kept |
| Payloads.FillDepositTemplate | zotzen.js:83-88 | the three writes succeed exactly when `related_identifiers[0]` can be read and is neither undefined nor null; the payload is then an object |
| Payloads.DepositTemplateChangesOnlyThreeFields | index.js:75-77 | on the shipped template shape, `related_identifiers[0].identifier` is the select link, and `title` and `description` are the title; every value reached by any other path is the template's |
| Payloads.UntouchedPath | zotzen.js:86-88 | one path apart from the three written ones reads the same in payload and template |
| Payloads.KeyedTemplateChangesOnlyThreeFields | index.js:75-77 | when `related_identifiers` is an object whose member `"0"` is an object, that member's `identifier` is the select link, and `title` and `description` are the title; every value reached by any other path is the template's |
| Payloads.KeyedUntouchedPath | zotzen.js:86-88 | for that shape, one path apart from the three written ones reads the same in payload and template |
| Payloads.KeyedIdentifiersUntouched | zotzen.js:86 | inside an object-shaped `related_identifiers`, every path apart from `0.identifier` reads the same after the write |
| Payloads.PrimitiveIdentifierIgnoresLink | zotzen.js:86 | any first related identifier that is not an object (a string, number, boolean or array) silently drops the select link; only title and description change |
| Payloads.UpdatePayload | zotzen.js:103-108 | the update is an object with the single member `extra`, holding the DOI |
| CreateFlow.Truthy | zotzen.js:65 | a string option is truthy only when given and not empty; the empty string is falsy |
| CreateFlow.Answer | zotzen.js:66-68 | a helper answer is passed on, and a failing helper becomes the failure naming its command |
| CreateFlow.SuccessLines | zotzen.js:110-120 | a successful run prints seven lines |
| CreateFlow.UpdateAndReport | zotzen.js:99-125 | after the deposit, the item update is the last command issued, and its payload holds the DOI read from the report. The run ends well exactly when the helper accepts the update; otherwise it fails on that command and nothing is printed or opened. A good run prints the seven summary lines, and opens the select link and deposit URL when asked |
| CreateFlow.UpdateStoresBareDoi | index.js:84-91 | for a report with a `DOI: <doi>` line, `extra` receives the bare DOI, not `DOI: <doi>` |
| ZotzenCli.OptionValue | zotzen.js:93 | an absent `--title` reaches the template as null, a given one as that string |
| CreateFlow.AnsweredThenStopped | zotzen.js:92-126 | commands that were all answered, followed by commands of which every one but the last was answered, form a run of which every command but the last was answered: a run that stopped at its first failure |
| ZotzenCli.ZoteroCreate | zotzen.js:64-80 | with a non-empty `--json` the file is created and the title ignored. Otherwise the report template is fetched and its title set, and the filled template is created. The item is obtained exactly when each of these steps answers. A missing template and a failing create fail on that command; a null template, and only that, gives a TypeError. At most two commands are issued; every command before the last was answered, and all were when the item is obtained; a failure other than a refused command issued only the template fetch. The commands are exactly the file alone, the fetch alone when the template is missing or null, or the fetch and the filled template (`ItemCommands`) |
| ZotzenCli.ZenodoCreate | zotzen.js:82-90 | an unreadable deposit template, and only that, gives the unreadable-template failure. A template whose first related identifier cannot take a member, and only that, gives a TypeError before any command. Otherwise the filled template, titled with the item's `data.title`, is the single command; the report is obtained exactly when the helper answers it |
| ZotzenCli.DepositAndReport | zotzen.js:99-125 | once the item exists: the run keeps the item's commands as its prefix, and a TypeError or unreadable-template run issued those commands and nothing more; it fails with a TypeError or an unreadable template exactly as the deposit template dictates; a refused command is the last one issued; every command before the last was answered; it ends well exactly when the deposit and the update both answer, and then issues exactly two more commands and reports as a successful run does. The commands after the item's are exactly `DepositCommands`: none for an unreadable or unwritable template, the deposit alone when it is refused, and the deposit then the DOI update otherwise |
| ZotzenCli.ZotzenCreate | zotzen.js:92-126 | a run ends well exactly when every step answers: the item is created, the deposit template is read and filled and the deposit created, and the update is accepted. A good run issues exactly three commands with `--json` and four without, first the item's, then the deposit pointing at the item's select link, then the update storing the report's DOI; it prints the summary and opens the links only with `--open`. A TypeError comes exactly from a null item template or a deposit template that cannot be written; an unreadable deposit template exactly after the item was created; and a failed command is the last one issued and one the helper refused. A run stops at its first failing command: every command before the last was answered, and a TypeError or unreadable-template run issued at most the item's commands (one with `--json`, two without). The whole command list is `CreateCommands`: the item's commands, then, once the item exists, the deposit and the update up to the first that is refused. A failed run prints and opens nothing |
| ZotzenCli.RunCli | zotzen.js:128-130 | without `--new` nothing is run, printed or opened. With it, the run is zotzenCreate's: its commands are exactly `CreateCommands`, it ends well exactly when every step answers, and then it has created both records and reported them; a failed run prints and opens nothing |
| IndexCli.CreateZoteroItem | index.js:56-65 | the report template is fetched first. A missing template or a failing create fails on that command; a null template, and only that, gives a TypeError. Otherwise the template with the `--title` set is created, and the item is the helper's answer; it is obtained exactly when each step answers. At most two commands are issued; every command before the last was answered, and all were when the item is obtained; a failure other than a refused command issued only the template fetch. The commands are exactly the fetch alone when the template is missing or null, or the fetch and the titled template (`ItemCommands`) |
| IndexCli.CreateZenodoDeposit | index.js:67-82 | an unreadable deposit template, and only that, gives the unreadable-template failure; a template whose first related identifier cannot take a member, and only that, gives a TypeError before any command. Otherwise the template is pointed at the item's select link and titled and described with the `--title`; the single command creates it, and the report is obtained exactly when the helper answers |
| IndexCli.DepositAndReport | index.js:67-103 | once the item exists: the run keeps the item's commands as its prefix, and a TypeError or unreadable-template run issued those commands and nothing more; it fails with a TypeError or an unreadable template exactly as the deposit template dictates; a refused command is the last one issued; every command before the last was answered; it ends well exactly when the deposit and the update both answer, and then issues exactly two more commands and reports without opening anything. The commands after the item's are exactly `DepositCommands`: none for an unreadable or unwritable template, the deposit alone when it is refused, and the deposit then the DOI update otherwise |
| IndexCli.ZotzenCreate | index.js:55-104 | a run ends well exactly when every step answers: the titled item is created, the deposit template is read and filled and the deposit created, and the update is accepted. A good run issues exactly four commands: the template, the titled item, a deposit pointing at the select link and titled and described with the `--title`, and the DOI update; it prints the summary and opens nothing. A missing item template fails on that command; a TypeError comes exactly from a null item template or a deposit template that cannot be written; an unreadable deposit template exactly after the item was created; a failed command is the last one issued and one the helper refused. A run stops at its first failing command: every command before the last was answered, and a TypeError or unreadable-template run issued at most the two item commands. The whole command list is `CreateCommands`: the template fetch and the titled item, then, once the item exists, the deposit and the update up to the first that is refused |
| IndexCli.RunCli | index.js:106-110 | a run happens exactly when `--new` is given with a non-empty `--title`; otherwise nothing is run, printed or opened. With both, the run is zotzenCreate(title)'s: its commands are exactly `CreateCommands`, it ends well exactly when every step answers, and then it has created both records and reported them; a failed run prints and opens nothing |

## Left out

- Running the helpers is not modelled: `execSync`, the working directories, and writing and removing the tmp files. Their answers are parameters.
- Reading `zenodo-cli/template.json` and `JSON.parse` are not modelled. The parsed document, or None when the file cannot be read or parsed, is a parameter.
- Opening links with `opn` and printing with `console.log` are not modelled as effects. They are recorded as the `openedLinks` and `printed` fields of a run.
- Argument parsing with `argparse` is not modelled: the options are an `Args` value, and `path.join` of the `--json` path is not modelled.
- CreatedItem keeps only the fields of `successful[0]` the scripts read: `key`, `library.id`, `links.self.href` and `data.title`. A missing `data.title` throws nothing: `title` and `description` become undefined, which `CreatedItem.title` (an Option) models. A missing `data` object is not modelled: zotzen.js throws at zotzen.js:87, after the deposit template is read and before the deposit command is issued (index.js does not read `data`). The model takes the other three to be present, and so does not model what their absence does:
  - a missing `key` throws nothing; the text `undefined` goes into the update command (zotzen.js:104, index.js:87) and into the printed ID (zotzen.js:112, index.js:95);
  - a `library` without `id` prints `undefined` in the ID; a missing `library` throws only when the ID is printed (zotzen.js:112, index.js:95), after the deposit and the update, where the model's run ends well;
  - a missing `links.self.href` throws when the select link is derived (zotzen.js:94, index.js:71), before the deposit.
- JSON objects are maps, so the key order of `JSON.stringify` is not modelled. Numbers are reals, and exponent and NaN forms are not modelled.
- Strings are sequences of characters, not UTF-16 code units.
- ZoteroLinks.Decimal: prints a library id as plain digits. It does not model `Number#toString` for ids of 1e21 and above or for non-integers.
- JsStrings.ReplaceFirst: does not model the `$` patterns of a replacement string. The select prefix holds none.
- ZenodoReport.FirstOccurrenceValue: holds for keys without a colon or a newline. The scripts read only `DOI`, `URL` and `RecordId`.
- Payloads.DepositTemplateChangesOnlyThreeFields: states the three writes for a template whose `related_identifiers` is an array starting with an object. `KeyedTemplateChangesOnlyThreeFields` covers an object with an object as member `"0"`, and `PrimitiveIdentifierIgnoresLink` a first identifier that is not an object. `FillDepositTemplate` states that every other template throws.
- CreateFlow.SuccessLines: its contract states only that there are seven lines. Their contents are the template strings of the source, and the extracted values are stated by the lemmas of `ZenodoReport` and `ZoteroLinks`.
- The objects the scripts mutate (the parsed templates) are modelled as values. The scripts never alias them, so no update in place is lost.
