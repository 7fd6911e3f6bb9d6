/**
 * What the create flow exchanges with its two command-line helpers, the
 * zotero helper (`node bin/zotero-cli.js`) and the zenodo helper
 * (`python zenodo-cli.py`), and what it reports once both records exist.
 * The helpers themselves are not modelled: each answer they can give is a
 * parameter.
 */
module CreateFlow {
  import opened Wrappers
  import opened JsStrings
  import opened JsonValues
  import opened ZenodoReport
  import opened ZoteroLinks
  import opened Payloads

  /** `successful[0]` of the zotero helper's create-item answer, as far as the flow reads it. */
  datatype CreatedItem = CreatedItem(key: string, libraryId: nat, selfHref: string, title: Option<Json>)

  /** A helper command, with the JSON document it is given through the helper's tmp file. */
  datatype Command =
    | ItemTemplate                              // zotero: create-item --template report
    | CreateItem(payload: Json)                 // zotero: create-item tmp
    | CreateItemFromFile(path: string)          // zotero: create-item <path of the --json file>
    | CreateDeposit(payload: Json)              // zenodo: create --show tmp
    | UpdateItem(key: string, payload: Json)    // zotero: update-item --key <key> tmp

  /**
   * The answers of the outside world. None (false for the update) is a
   * command that exits non-zero or an output JSON.parse rejects: both throw
   * and end the run.
   */
  datatype Helpers = Helpers(
    itemTemplate: Option<Json>,
    createItem: Json -> Option<CreatedItem>,
    createItemFromFile: string -> Option<CreatedItem>,
    depositTemplate: Option<Json>,              // zenodo-cli/template.json, read and parsed
    createDeposit: Json -> Option<string>,      // the text report of the new deposit
    updateItem: (string, Json) -> bool)

  /** Why a run stopped: a helper command failed, the deposit template could not be read, or a property write threw. */
  datatype Failure = CommandFailed(command: Command) | TemplateUnreadable | TypeError

  /**
   * What a run did: the commands it ran, in order; the created item and the
   * deposit report, once obtained; the lines printed; the links opened in the browser; and
   * the failure that ended it, if any.
   */
  datatype Run = Run(
    commands: seq<Command>,
    item: Option<CreatedItem>,
    report: Option<string>,
    printed: seq<string>,
    openedLinks: seq<string>,
    failure: Option<Failure>)

  /** A JavaScript string option is truthy when it is given and not empty. */
  predicate Truthy(s: Option<string>): (b: bool)
    ensures b ==> s.Some? && |s.value| > 0
    ensures s == Some("") ==> !b
  {
    s.Some? && s.value != ""
  }

  /** A command's answer, or the failure naming the command. */
  function Answer<T>(answer: Option<T>, command: Command): (r: Result<T, Failure>)
    ensures r.Ok? <==> answer.Some?
    ensures r.Ok? ==> r.value == answer.value
    ensures r.Err? ==> r.error == CommandFailed(command)
  {
    if answer.Some? then Ok(answer.value) else Err(CommandFailed(command))
  }

  /** Whether the helper answers `command`, rather than failing. */
  predicate Answers(h: Helpers, command: Command) {
    match command
    case ItemTemplate => h.itemTemplate.Some?
    case CreateItem(payload) => h.createItem(payload).Some?
    case CreateItemFromFile(path) => h.createItemFromFile(path).Some?
    case CreateDeposit(payload) => h.createDeposit(payload).Some?
    case UpdateItem(key, payload) => h.updateItem(key, payload)
  }

  /** The helpers answered every command in `commands`. */
  predicate AllAnswered(h: Helpers, commands: seq<Command>)
    decreases |commands|
  {
    commands == [] || (Answers(h, commands[0]) && AllAnswered(h, commands[1..]))
  }

  /** The helpers answered every command but the last: a run stops at the first command that fails. */
  predicate AnsweredBeforeLast(h: Helpers, commands: seq<Command>)
    decreases |commands|
  {
    |commands| <= 1 || (Answers(h, commands[0]) && AnsweredBeforeLast(h, commands[1..]))
  }

  /**
   * Commands that were all answered, followed by commands of which all but
   * the last were answered, are commands of which all but the last were
   * answered.
   */
  lemma {:induction false} AnsweredThenStopped(h: Helpers, done: seq<Command>, rest: seq<Command>)
    requires AllAnswered(h, done) && AnsweredBeforeLast(h, rest)
    ensures AnsweredBeforeLast(h, done + rest)
    decreases |done|
  {
    if done == [] {
      assert done + rest == rest;
    } else {
      AnsweredThenStopped(h, done[1..], rest);
      assert (done + rest)[0] == done[0];
      assert (done + rest)[1..] == done[1..] + rest;
    }
  }

  /**
   * The report the deposit step obtains when the deposit template can be read
   * and filled with `link` and `title`, and the zenodo helper answers; None
   * when any of these fails.
   */
  function DepositReport(h: Helpers, link: string, title: Option<Json>): Option<string> {
    if h.depositTemplate.Some? && IdentifierWritable(h.depositTemplate.value)
    then h.createDeposit(FillDepositTemplate(h.depositTemplate.value, link, title).value)
    else None
  }

  /**
   * The commands issued once the item exists: none when the deposit template
   * is unreadable or cannot be written; the deposit; and, when the deposit
   * answers, the update storing its DOI in the item.
   */
  function DepositCommands(h: Helpers, item: CreatedItem, link: string, title: Option<Json>): seq<Command> {
    if h.depositTemplate.None? || !IdentifierWritable(h.depositTemplate.value) then []
    else
      var deposit := FillDepositTemplate(h.depositTemplate.value, link, title).value;
      match h.createDeposit(deposit)
      case None => [CreateDeposit(deposit)]
      case Some(report) => [CreateDeposit(deposit), UpdateItem(item.key, UpdatePayload(ParseFromZenodoResponse(report, "DOI")))]
  }

  /** Whether the zotero helper accepts the update storing the report's DOI in the item. */
  predicate StoresDoi(h: Helpers, item: CreatedItem, report: string) {
    h.updateItem(item.key, UpdatePayload(ParseFromZenodoResponse(report, "DOI")))
  }

  const CREATED_LINE: string := "Item successfully created: "
  const ZOTERO_ID_LABEL: string := "Zotero ID: "
  const ZOTERO_LINK_LABEL: string := "Zotero link: "
  const SELECT_LINK_LABEL: string := "Zotero select link: "
  const RECORD_ID_LABEL: string := "Zenodo RecordId: "
  const DOI_LABEL: string := "Zenodo DOI: "
  const DEPOSIT_LINK_LABEL: string := "Zenodo deposit link: "

  /** The lines printed after a successful create. */
  function SuccessLines(item: CreatedItem, selectLink: string, report: string): (lines: seq<string>)
    ensures |lines| == 7
  {
    [ CREATED_LINE,
      ZOTERO_ID_LABEL + ZoteroId(item.libraryId, item.key),
      ZOTERO_LINK_LABEL + item.selfHref,
      SELECT_LINK_LABEL + selectLink,
      RECORD_ID_LABEL + ParseFromZenodoResponse(report, "RecordId"),
      DOI_LABEL + ParseFromZenodoResponse(report, "DOI"),
      DEPOSIT_LINK_LABEL + ParseFromZenodoResponse(report, "URL") ]
  }

  /**
   * The end of a run that created `deposit`: its report was obtained, the
   * last command stored the report's DOI in the item, the summary was
   * printed and, when `openLinks` holds, the select link and the deposit
   * link were opened.
   */
  predicate Reported(openLinks: bool, h: Helpers, run: Run, link: string, deposit: Json) {
    && run.item.Some? && run.report.Some?
    && var item, report := run.item.value, run.report.value;
    && var doi := ParseFromZenodoResponse(report, "DOI");
    && h.createDeposit(deposit) == Some(report)
    && |run.commands| >= 3
    && run.commands[|run.commands| - 2] == CreateDeposit(deposit)
    && run.commands[|run.commands| - 1] == UpdateItem(item.key, UpdatePayload(doi))
    && h.updateItem(item.key, UpdatePayload(doi))
    && run.printed == SuccessLines(item, link, report)
    && run.openedLinks == (if openLinks then [link, ParseFromZenodoResponse(report, "URL")] else [])
  }

  /**
   * The end of zotzenCreate in both scripts, once the deposit exists: store
   * its DOI in the item, then print the summary and, if asked, open the links.
   */
  method UpdateAndReport(openLinks: bool, h: Helpers, item: CreatedItem, selectLink: string, deposit: Json,
                         report: string, commands: seq<Command>) returns (run: Run)
    requires h.createDeposit(deposit) == Some(report)
    requires |commands| >= 2 && commands[|commands| - 1] == CreateDeposit(deposit)
    ensures run.commands == commands + [UpdateItem(item.key, UpdatePayload(ParseFromZenodoResponse(report, "DOI")))]
    ensures |run.commands| == |commands| + 1
    ensures run.item == Some(item) && run.report == Some(report)
    ensures run.failure.Some? ==> run.failure.value == CommandFailed(run.commands[|run.commands| - 1])
    ensures run.failure.Some? ==> !Answers(h, run.failure.value.command)
    ensures run.failure.None? <==> StoresDoi(h, item, report)
    ensures run.failure.Some? ==> run.printed == [] && run.openedLinks == []
    ensures run.failure.None? ==> Reported(openLinks, h, run, selectLink, deposit)
  {
    var doi := ParseFromZenodoResponse(report, "DOI");
    var zenodoDepositUrl := ParseFromZenodoResponse(report, "URL");
    var update := UpdateItem(item.key, UpdatePayload(doi));
    var all := commands + [update];
    if !h.updateItem(item.key, UpdatePayload(doi)) {
      run := Run(all, Some(item), Some(report), [], [], Some(CommandFailed(update)));
      return;
    }
    var printed := SuccessLines(item, selectLink, report);
    var openedLinks := if openLinks then [selectLink, zenodoDepositUrl] else [];
    run := Run(all, Some(item), Some(report), printed, openedLinks, None);
  }

  /**
   * For a report whose first `DOI:` is a `DOI: <doi>` line, the update stores
   * the bare DOI in `extra`, without a `DOI:` prefix, and nothing else.
   */
  lemma UpdateStoresBareDoi(pre: string, doi: string, rest: string)
    requires '\n' !in doi
    requires doi == [] || (!IsJsWhitespace(doi[0]) && !IsJsWhitespace(doi[|doi| - 1]))
    requires rest == [] || rest[0] == '\n'
    requires forall j :: 0 <= j < |pre| ==> !OccursAt(pre + "DOI" + ": " + doi + rest, "DOI" + ":", j)
    ensures UpdatePayload(ParseFromZenodoResponse(pre + "DOI" + ": " + doi + rest, "DOI"))
         == JObj(map["extra" := JStr(doi)])
  {
    SpacedLineValue(pre, "DOI", doi, rest);
  }
}
