/**
 * zotzen.js: with `--new`, create a Zotero item (from the report template
 * titled with `--title`, or from the `--json` file), create a Zenodo
 * deposit that points back at it, store the deposit's DOI in the item, print
 * both identities, and with `--open` open the two links.
 */
module ZotzenCli {
  import opened Wrappers
  import opened JsonValues
  import opened ZoteroLinks
  import opened Payloads
  import opened CreateFlow

  /** The options zotzen.js reads (`--new`, `--title`, `--json`, `--open`); a string option not given is None (argparse leaves it null). */
  datatype Args = Args(newItem: bool, title: Option<string>, json: Option<string>, openLinks: bool)

  /** The value `args.title` has in JavaScript: the string, or null. */
  function OptionValue(s: Option<string>): (j: Json)
    ensures s.Some? <==> j.JStr?
    ensures s.Some? ==> j.s == s.value
  {
    if s.Some? then JStr(s.value) else JNull
  }

  /**
   * The item zoteroCreate obtains when each of its steps answers: the
   * helper's answer for the file, or for the report template with its title
   * set; None when a command fails or the title write throws.
   */
  function ItemOf(title: Option<string>, jsonFile: Option<string>, h: Helpers): Option<CreatedItem> {
    if Truthy(jsonFile) then h.createItemFromFile(jsonFile.value)
    else if h.itemTemplate.None? || h.itemTemplate.value.JNull? then None
    else h.createItem(FillItemTemplate(h.itemTemplate.value, OptionValue(title)).value)
  }

  /**
   * The commands zoteroCreate issues: the file alone; the template fetch
   * alone when the template is missing or null; otherwise the fetch and
   * then the filled template.
   */
  function ItemCommands(title: Option<string>, jsonFile: Option<string>, h: Helpers): seq<Command> {
    if Truthy(jsonFile) then [CreateItemFromFile(jsonFile.value)]
    else if h.itemTemplate.None? || h.itemTemplate.value.JNull? then [ItemTemplate]
    else [ItemTemplate, CreateItem(FillItemTemplate(h.itemTemplate.value, OptionValue(title)).value)]
  }

  /**
   * The commands zotzenCreate(args) issues: the item's, then, once the item
   * exists, the deposit and the update, up to the first that fails.
   */
  function CreateCommands(args: Args, h: Helpers): seq<Command> {
    ItemCommands(args.title, args.json, h) +
      match ItemOf(args.title, args.json, h)
      case None => []
      case Some(item) => DepositCommands(h, item, SelectLink(item.selfHref), item.title)
  }

  /** How many commands creating the item takes: the file alone, or the template and then the filled template. */
  function ItemCommandCount(jsonFile: Option<string>): nat {
    if Truthy(jsonFile) then 1 else 2
  }

  /**
   * zoteroCreate(title, jsonFile): with a JSON file the title is ignored and
   * the file is handed to the helper; otherwise the helper's report template
   * is fetched, its title replaced, and the result created.
   */
  method ZoteroCreate(title: Option<string>, jsonFile: Option<string>, h: Helpers)
    returns (commands: seq<Command>, item: Result<CreatedItem, Failure>)
    ensures Truthy(jsonFile) ==>
              && commands == [CreateItemFromFile(jsonFile.value)]
              && item == Answer(h.createItemFromFile(jsonFile.value), commands[0])
    ensures !Truthy(jsonFile) && h.itemTemplate.None? ==>
              commands == [ItemTemplate] && item == Err(CommandFailed(ItemTemplate))
    ensures !Truthy(jsonFile) && h.itemTemplate.Some? && h.itemTemplate.value.JNull? ==>
              commands == [ItemTemplate] && item == Err(TypeError)
    ensures !Truthy(jsonFile) && h.itemTemplate.Some? && !h.itemTemplate.value.JNull? ==>
              && |commands| == 2 && commands[0] == ItemTemplate
              && commands[1] == CreateItem(FillItemTemplate(h.itemTemplate.value, OptionValue(title)).value)
              && item == Answer(h.createItem(commands[1].payload), commands[1])
    ensures commands != [] && commands[0] == (if Truthy(jsonFile) then CreateItemFromFile(jsonFile.value) else ItemTemplate)
    ensures item.Err? && item.error.CommandFailed? ==> commands[|commands| - 1] == item.error.command
    ensures item.Err? && item.error.CommandFailed? ==> !Answers(h, item.error.command)
    ensures item.Ok? <==> ItemOf(title, jsonFile, h).Some?
    ensures item.Ok? ==> ItemOf(title, jsonFile, h) == Some(item.value)
    ensures item == Err(TypeError) <==> !Truthy(jsonFile) && h.itemTemplate.Some? && h.itemTemplate.value.JNull?
    ensures item.Err? ==> item.error != TemplateUnreadable
    ensures commands == ItemCommands(title, jsonFile, h)
    ensures item.Ok? ==> |commands| == ItemCommandCount(jsonFile)
    ensures |commands| <= 2
    ensures item.Err? && !item.error.CommandFailed? ==> commands == [ItemTemplate]
    ensures AnsweredBeforeLast(h, commands)
    ensures item.Ok? ==> AllAnswered(h, commands)
  {
    if Truthy(jsonFile) {
      commands := [CreateItemFromFile(jsonFile.value)];
      item := Answer(h.createItemFromFile(jsonFile.value), commands[0]);
      return;
    }
    commands := [ItemTemplate];
    if h.itemTemplate.None? {
      item := Err(CommandFailed(ItemTemplate));
      return;
    }
    var templateJson := FillItemTemplate(h.itemTemplate.value, OptionValue(title));
    if templateJson.None? {
      item := Err(TypeError);
      return;
    }
    commands := commands + [CreateItem(templateJson.value)];
    item := Answer(h.createItem(templateJson.value), commands[1]);
  }

  /**
   * zenodoCreate(zoteroRecord, zoteroSelectLink): read the deposit template,
   * point its first related identifier at the item, title and describe it
   * with the item's title, and create the deposit.
   */
  method ZenodoCreate(item: CreatedItem, selectLink: string, h: Helpers)
    returns (commands: seq<Command>, report: Result<string, Failure>)
    ensures h.depositTemplate.None? ==> commands == [] && report == Err(TemplateUnreadable)
    ensures h.depositTemplate.Some? && !IdentifierWritable(h.depositTemplate.value) ==>
              commands == [] && report == Err(TypeError)
    ensures h.depositTemplate.Some? && IdentifierWritable(h.depositTemplate.value) ==>
              && commands == [CreateDeposit(FillDepositTemplate(h.depositTemplate.value, selectLink, item.title).value)]
              && report == Answer(h.createDeposit(commands[0].payload), commands[0])
    ensures report.Err? && report.error.CommandFailed? ==> commands != [] && commands[|commands| - 1] == report.error.command
    ensures report.Ok? ==>
              && |commands| == 1 && commands[0].CreateDeposit?
              && h.createDeposit(commands[0].payload) == Some(report.value)
    ensures report.Err? && report.error.CommandFailed? ==> !Answers(h, report.error.command)
    ensures report.Ok? <==> DepositReport(h, selectLink, item.title).Some?
    ensures report.Ok? ==> DepositReport(h, selectLink, item.title) == Some(report.value)
    ensures report == Err(TypeError) <==> h.depositTemplate.Some? && !IdentifierWritable(h.depositTemplate.value)
    ensures report == Err(TemplateUnreadable) <==> h.depositTemplate.None?
  {
    commands := [];
    if h.depositTemplate.None? {
      report := Err(TemplateUnreadable);
      return;
    }
    var zenodoTemplate := FillDepositTemplate(h.depositTemplate.value, selectLink, item.title);
    if zenodoTemplate.None? {
      report := Err(TypeError);
      return;
    }
    commands := [CreateDeposit(zenodoTemplate.value)];
    report := Answer(h.createDeposit(zenodoTemplate.value), commands[0]);
  }

  /**
   * A run that ended well: the deposit was created from the filled template
   * pointing at the item's select link, and the run then did what
   * `Reported` says, opening the links when `--open` was given.
   */
  predicate CreatedBoth(args: Args, h: Helpers, run: Run) {
    && run.item.Some? && h.depositTemplate.Some?
    && var link := SelectLink(run.item.value.selfHref);
    && var deposit := FillDepositTemplate(h.depositTemplate.value, link, run.item.value.title);
    && deposit.Some?
    && Reported(args.openLinks, h, run, link, deposit.value)
  }

  /**
   * Every step of zotzenCreate answers: the item is created, the deposit
   * template is read and filled and the deposit created, and the update
   * storing its DOI is accepted.
   */
  predicate EveryStepAnswers(args: Args, h: Helpers) {
    && ItemOf(args.title, args.json, h).Some?
    && var item := ItemOf(args.title, args.json, h).value;
    && var report := DepositReport(h, SelectLink(item.selfHref), item.title);
    && report.Some?
    && StoresDoi(h, item, report.value)
  }

  /**
   * The rest of zotzenCreate(args) once `commands` have created `item`: the
   * deposit pointing at the item's select link, then the update storing its
   * DOI, the summary and, with `--open`, the two links.
   */
  method DepositAndReport(args: Args, h: Helpers, commands: seq<Command>, item: CreatedItem) returns (run: Run)
    requires commands != []
    requires AllAnswered(h, commands)
    ensures run.commands == commands + DepositCommands(h, item, SelectLink(item.selfHref), item.title)
    ensures |run.commands| >= |commands| && run.commands[..|commands|] == commands
    ensures run.failure.Some? && !run.failure.value.CommandFailed? ==> run.commands == commands && |run.commands| == |commands|
    ensures AnsweredBeforeLast(h, run.commands)
    ensures run.item == Some(item)
    ensures run.failure.Some? && run.failure.value.CommandFailed? ==>
              && |run.commands| > |commands|
              && run.commands[|run.commands| - 1] == run.failure.value.command
              && !Answers(h, run.failure.value.command)
    ensures run.failure.Some? ==> run.printed == [] && run.openedLinks == []
    ensures run.failure == Some(TypeError) <==> h.depositTemplate.Some? && !IdentifierWritable(h.depositTemplate.value)
    ensures run.failure == Some(TemplateUnreadable) <==> h.depositTemplate.None?
    ensures run.failure.None? <==>
              && DepositReport(h, SelectLink(item.selfHref), item.title).Some?
              && StoresDoi(h, item, DepositReport(h, SelectLink(item.selfHref), item.title).value)
    ensures run.failure.None? ==> |run.commands| == |commands| + 2 && CreatedBoth(args, h, run)
  {
    var zoteroSelectLink := SelectLink(item.selfHref);
    var zenodoCommands, zenodoRecord := ZenodoCreate(item, zoteroSelectLink, h);
    var all := commands + zenodoCommands;
    if zenodoRecord.Err? {
      AnsweredThenStopped(h, commands, zenodoCommands);
      run := Run(all, Some(item), None, [], [], Some(zenodoRecord.error));
      return;
    }
    var deposit := zenodoCommands[0].payload;
    run := UpdateAndReport(args.openLinks, h, item, zoteroSelectLink, deposit, zenodoRecord.value, all);
    var tail := zenodoCommands + [run.commands[|run.commands| - 1]];
    AnsweredThenStopped(h, commands, tail);
    assert run.commands == commands + tail;
  }

  /**
   * zotzenCreate(args): the Zotero item, then the deposit pointing at its
   * select link, then the update storing the deposit's DOI in the item, then
   * the printed summary and, with `--open`, the two links. A failing step
   * ends the run: nothing after it is run, printed or opened.
   */
  method ZotzenCreate(args: Args, h: Helpers) returns (run: Run)
    ensures run.commands == CreateCommands(args, h)
    ensures |run.commands| >= 1
    ensures run.commands[0] == (if Truthy(args.json) then CreateItemFromFile(args.json.value) else ItemTemplate)
    ensures AnsweredBeforeLast(h, run.commands)
    ensures run.failure.Some? && !run.failure.value.CommandFailed? ==> |run.commands| <= ItemCommandCount(args.json)
    ensures run.failure.Some? && run.failure.value.CommandFailed? ==>
              run.commands[|run.commands| - 1] == run.failure.value.command
    ensures run.failure.Some? && run.failure.value.CommandFailed? ==> !Answers(h, run.failure.value.command)
    ensures run.failure.Some? ==> run.printed == [] && run.openedLinks == []
    ensures run.item.Some? && Truthy(args.json) ==> h.createItemFromFile(args.json.value) == run.item
    ensures run.item.Some? && !Truthy(args.json) ==>
              && h.itemTemplate.Some?
              && var payload := FillItemTemplate(h.itemTemplate.value, OptionValue(args.title));
              && payload.Some? && |run.commands| >= 2
              && run.commands[1] == CreateItem(payload.value)
              && h.createItem(payload.value) == run.item
    ensures run.failure == Some(TypeError) <==>
              || (!Truthy(args.json) && h.itemTemplate.Some? && h.itemTemplate.value.JNull?)
              || (&& ItemOf(args.title, args.json, h).Some?
                  && h.depositTemplate.Some? && !IdentifierWritable(h.depositTemplate.value))
    ensures run.failure == Some(TemplateUnreadable) <==>
              ItemOf(args.title, args.json, h).Some? && h.depositTemplate.None?
    ensures run.failure.None? <==> EveryStepAnswers(args, h)
    ensures run.failure.None? ==> |run.commands| == ItemCommandCount(args.json) + 2
    ensures run.failure.None? ==> CreatedBoth(args, h, run)
  {
    var zoteroCommands, zoteroRecord := ZoteroCreate(args.title, args.json, h);
    if zoteroRecord.Err? {
      run := Run(zoteroCommands, None, None, [], [], Some(zoteroRecord.error));
      return;
    }
    run := DepositAndReport(args, h, zoteroCommands, zoteroRecord.value);
    assert run.commands[..|zoteroCommands|] == zoteroCommands;
  }

  /** The script's top level: a create run with `--new`, nothing at all without it. */
  method RunCli(args: Args, h: Helpers) returns (run: Run)
    ensures !args.newItem ==> run == Run([], None, None, [], [], None)
    ensures args.newItem <==> run.commands != []
    ensures args.newItem ==> run.commands == CreateCommands(args, h)
    ensures args.newItem ==> (run.failure.None? <==> EveryStepAnswers(args, h))
    ensures args.newItem && run.failure.None? ==> CreatedBoth(args, h, run)
    ensures run.failure.Some? ==> run.printed == [] && run.openedLinks == []
  {
    if args.newItem {
      run := ZotzenCreate(args, h);
    } else {
      run := Run([], None, None, [], [], None);
    }
  }
}
