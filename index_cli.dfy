/**
 * index.js, the earlier form of the script: with `--new` and a non-empty
 * `--title`, create a Zotero report item with that title, create a Zenodo
 * deposit titled and described with it that points back at the item, store
 * the deposit's DOI in the item and print both identities.
 */
module IndexCli {
  import opened Wrappers
  import opened JsonValues
  import opened ZoteroLinks
  import opened Payloads
  import opened CreateFlow

  /** The options index.js reads (`--new`, `--title`); a title not given is None. */
  datatype Args = Args(newItem: bool, title: Option<string>)

  /**
   * A run that ended well: the item was created from the report template
   * titled with `title`, the deposit from the deposit template pointing at
   * the item's select link and titled and described with the same `title`,
   * and the run then did what `Reported` says, without opening anything.
   */
  predicate CreatedBoth(title: string, h: Helpers, run: Run) {
    && run.item.Some? && h.itemTemplate.Some? && h.depositTemplate.Some?
    && var payload := FillItemTemplate(h.itemTemplate.value, JStr(title));
    && var link := SelectLink(run.item.value.selfHref);
    && var deposit := FillDepositTemplate(h.depositTemplate.value, link, Some(JStr(title)));
    && payload.Some? && deposit.Some?
    && h.createItem(payload.value) == run.item
    && Reported(false, h, run, link, deposit.value)
  }

  /**
   * The item the first half obtains when each of its steps answers: the
   * helper's answer for the report template titled `title`; None when a
   * command fails or the title write throws.
   */
  function ItemOf(title: string, h: Helpers): Option<CreatedItem> {
    if h.itemTemplate.None? || h.itemTemplate.value.JNull? then None
    else h.createItem(FillItemTemplate(h.itemTemplate.value, JStr(title)).value)
  }

  /**
   * The commands the first half issues: the template fetch alone when the
   * template is missing or null; otherwise the fetch and then the titled
   * template.
   */
  function ItemCommands(title: string, h: Helpers): seq<Command> {
    if h.itemTemplate.None? || h.itemTemplate.value.JNull? then [ItemTemplate]
    else [ItemTemplate, CreateItem(FillItemTemplate(h.itemTemplate.value, JStr(title)).value)]
  }

  /**
   * The commands zotzenCreate(title) issues: the item's, then, once the
   * item exists, the deposit and the update, up to the first that fails.
   */
  function CreateCommands(title: string, h: Helpers): seq<Command> {
    ItemCommands(title, h) +
      match ItemOf(title, h)
      case None => []
      case Some(item) => DepositCommands(h, item, SelectLink(item.selfHref), Some(JStr(title)))
  }

  /**
   * Every step of zotzenCreate(title) answers: the item is created, the
   * deposit template is read and filled and the deposit created, and the
   * update storing its DOI is accepted.
   */
  predicate EveryStepAnswers(title: string, h: Helpers) {
    && ItemOf(title, h).Some?
    && var item := ItemOf(title, h).value;
    && var report := DepositReport(h, SelectLink(item.selfHref), Some(JStr(title)));
    && report.Some?
    && StoresDoi(h, item, report.value)
  }

  /**
   * The "Create zotero record" half of zotzenCreate(title): fetch the report
   * template, set its title and create the item.
   */
  method CreateZoteroItem(title: string, h: Helpers) returns (commands: seq<Command>, item: Result<CreatedItem, Failure>)
    ensures h.itemTemplate.None? ==> commands == [ItemTemplate] && item == Err(CommandFailed(ItemTemplate))
    ensures h.itemTemplate.Some? && h.itemTemplate.value.JNull? ==> commands == [ItemTemplate] && item == Err(TypeError)
    ensures h.itemTemplate.Some? && !h.itemTemplate.value.JNull? ==>
              && commands == [ItemTemplate, CreateItem(FillItemTemplate(h.itemTemplate.value, JStr(title)).value)]
              && item == Answer(h.createItem(commands[1].payload), commands[1])
    ensures commands != [] && commands[0] == ItemTemplate
    ensures item.Err? && item.error.CommandFailed? ==> commands[|commands| - 1] == item.error.command
    ensures item.Err? ==> item.error != TemplateUnreadable
    ensures item.Ok? <==>
              && h.itemTemplate.Some? && !h.itemTemplate.value.JNull?
              && h.createItem(FillItemTemplate(h.itemTemplate.value, JStr(title)).value).Some?
    ensures item.Err? && item.error.CommandFailed? ==> !Answers(h, item.error.command)
    ensures item.Ok? ==> ItemOf(title, h) == Some(item.value)
    ensures item == Err(TypeError) <==> h.itemTemplate.Some? && h.itemTemplate.value.JNull?
    ensures commands == ItemCommands(title, h)
    ensures |commands| <= 2
    ensures item.Err? && !item.error.CommandFailed? ==> commands == [ItemTemplate]
    ensures AnsweredBeforeLast(h, commands)
    ensures item.Ok? ==> AllAnswered(h, commands)
  {
    commands := [ItemTemplate];
    if h.itemTemplate.None? {
      item := Err(CommandFailed(ItemTemplate));
      return;
    }
    var templateJson := FillItemTemplate(h.itemTemplate.value, JStr(title));
    if templateJson.None? {
      item := Err(TypeError);
      return;
    }
    commands := commands + [CreateItem(templateJson.value)];
    item := Answer(h.createItem(templateJson.value), commands[1]);
  }

  /**
   * The "Create zenodo record" half: read the deposit template, point it at
   * the item's select link, title and describe it with `title`, and create
   * the deposit.
   */
  method CreateZenodoDeposit(title: string, item: CreatedItem, h: Helpers)
    returns (commands: seq<Command>, report: Result<string, Failure>)
    ensures h.depositTemplate.None? ==> commands == [] && report == Err(TemplateUnreadable)
    ensures h.depositTemplate.Some? && !IdentifierWritable(h.depositTemplate.value) ==>
              commands == [] && report == Err(TypeError)
    ensures h.depositTemplate.Some? && IdentifierWritable(h.depositTemplate.value) ==>
              && commands == [CreateDeposit(FillDepositTemplate(h.depositTemplate.value, SelectLink(item.selfHref), Some(JStr(title))).value)]
              && report == Answer(h.createDeposit(commands[0].payload), commands[0])
    ensures report.Err? && report.error.CommandFailed? ==> commands != [] && commands[|commands| - 1] == report.error.command
    ensures report == Err(TemplateUnreadable) <==> h.depositTemplate.None?
    ensures report.Ok? ==>
              && |commands| == 1 && commands[0].CreateDeposit?
              && h.createDeposit(commands[0].payload) == Some(report.value)
    ensures report.Err? && report.error.CommandFailed? ==> !Answers(h, report.error.command)
    ensures report.Ok? <==> DepositReport(h, SelectLink(item.selfHref), Some(JStr(title))).Some?
    ensures report.Ok? ==> DepositReport(h, SelectLink(item.selfHref), Some(JStr(title))) == Some(report.value)
    ensures report == Err(TypeError) <==> h.depositTemplate.Some? && !IdentifierWritable(h.depositTemplate.value)
  {
    commands := [];
    if h.depositTemplate.None? {
      report := Err(TemplateUnreadable);
      return;
    }
    var zoteroSelectLink := SelectLink(item.selfHref);
    var zenodoTemplate := FillDepositTemplate(h.depositTemplate.value, zoteroSelectLink, Some(JStr(title)));
    if zenodoTemplate.None? {
      report := Err(TypeError);
      return;
    }
    commands := [CreateDeposit(zenodoTemplate.value)];
    report := Answer(h.createDeposit(zenodoTemplate.value), commands[0]);
  }

  /**
   * The rest of zotzenCreate(title) once `commands` have created `item`: the
   * deposit pointing at the item's select link and titled with `title`, then
   * the update storing its DOI and the summary.
   */
  method DepositAndReport(title: string, h: Helpers, commands: seq<Command>, item: CreatedItem) returns (run: Run)
    requires commands != []
    requires AllAnswered(h, commands)
    ensures run.commands == commands + DepositCommands(h, item, SelectLink(item.selfHref), Some(JStr(title)))
    ensures |run.commands| >= |commands| && run.commands[..|commands|] == commands
    ensures run.failure.Some? && !run.failure.value.CommandFailed? ==> run.commands == commands && |run.commands| == |commands|
    ensures AnsweredBeforeLast(h, run.commands)
    ensures run.item == Some(item)
    ensures run.openedLinks == []
    ensures run.failure.Some? && run.failure.value.CommandFailed? ==>
              && |run.commands| > |commands|
              && run.commands[|run.commands| - 1] == run.failure.value.command
              && !Answers(h, run.failure.value.command)
    ensures run.failure.Some? ==> run.printed == []
    ensures run.failure == Some(TypeError) <==> h.depositTemplate.Some? && !IdentifierWritable(h.depositTemplate.value)
    ensures run.failure == Some(TemplateUnreadable) <==> h.depositTemplate.None?
    ensures run.failure.None? <==>
              && DepositReport(h, SelectLink(item.selfHref), Some(JStr(title))).Some?
              && StoresDoi(h, item, DepositReport(h, SelectLink(item.selfHref), Some(JStr(title))).value)
    ensures run.failure.None? ==>
              && |run.commands| == |commands| + 2
              && h.depositTemplate.Some?
              && var link := SelectLink(item.selfHref);
              && var deposit := FillDepositTemplate(h.depositTemplate.value, link, Some(JStr(title)));
              && deposit.Some?
              && Reported(false, h, run, link, deposit.value)
  {
    var zenodoCommands, zenodoRecord := CreateZenodoDeposit(title, item, h);
    var all := commands + zenodoCommands;
    if zenodoRecord.Err? {
      AnsweredThenStopped(h, commands, zenodoCommands);
      run := Run(all, Some(item), None, [], [], Some(zenodoRecord.error));
      return;
    }
    var link := SelectLink(item.selfHref);
    var deposit := FillDepositTemplate(h.depositTemplate.value, link, Some(JStr(title))).value;
    run := UpdateAndReport(false, h, item, link, deposit, zenodoRecord.value, all);
    var tail := zenodoCommands + [run.commands[|run.commands| - 1]];
    AnsweredThenStopped(h, commands, tail);
    assert run.commands == commands + tail;
  }

  /**
   * zotzenCreate(title): create the item, then the deposit pointing at it,
   * then update the item and print. A failing step ends the run.
   */
  method ZotzenCreate(title: string, h: Helpers) returns (run: Run)
    ensures run.commands == CreateCommands(title, h)
    ensures |run.commands| >= 1 && run.commands[0] == ItemTemplate
    ensures AnsweredBeforeLast(h, run.commands)
    ensures run.failure.Some? && !run.failure.value.CommandFailed? ==> |run.commands| <= 2
    ensures run.failure.Some? && run.failure.value.CommandFailed? ==>
              run.commands[|run.commands| - 1] == run.failure.value.command
    ensures run.failure.Some? && run.failure.value.CommandFailed? ==> !Answers(h, run.failure.value.command)
    ensures run.failure.Some? ==> run.printed == [] && run.openedLinks == []
    ensures run.openedLinks == []
    ensures h.itemTemplate.None? ==> run.failure == Some(CommandFailed(ItemTemplate))
    ensures run.failure == Some(TypeError) <==>
              || (h.itemTemplate.Some? && h.itemTemplate.value.JNull?)
              || (ItemOf(title, h).Some? && h.depositTemplate.Some? && !IdentifierWritable(h.depositTemplate.value))
    ensures run.failure == Some(TemplateUnreadable) <==> ItemOf(title, h).Some? && h.depositTemplate.None?
    ensures run.item.Some? ==>
              && h.itemTemplate.Some?
              && var payload := FillItemTemplate(h.itemTemplate.value, JStr(title));
              && payload.Some? && |run.commands| >= 2
              && run.commands[1] == CreateItem(payload.value)
              && h.createItem(payload.value) == run.item
    ensures run.failure.None? <==> EveryStepAnswers(title, h)
    ensures run.failure.None? ==> |run.commands| == 4 && CreatedBoth(title, h, run)
  {
    var zoteroCommands, newItem := CreateZoteroItem(title, h);
    if newItem.Err? {
      run := Run(zoteroCommands, None, None, [], [], Some(newItem.error));
      return;
    }
    run := DepositAndReport(title, h, zoteroCommands, newItem.value);
    assert run.commands[..|zoteroCommands|] == zoteroCommands;
  }

  /** The script's top level: a create run only with `--new` and a non-empty `--title`. */
  method RunCli(args: Args, h: Helpers) returns (run: Run)
    ensures !(args.newItem && Truthy(args.title)) ==> run == Run([], None, None, [], [], None)
    ensures (args.newItem && Truthy(args.title)) <==> run.commands != []
    ensures args.newItem && Truthy(args.title) ==> run.commands == CreateCommands(args.title.value, h)
    ensures args.newItem && Truthy(args.title) ==> (run.failure.None? <==> EveryStepAnswers(args.title.value, h))
    ensures args.newItem && Truthy(args.title) && run.failure.None? ==> CreatedBoth(args.title.value, h, run)
    ensures run.failure.Some? ==> run.printed == [] && run.openedLinks == []
  {
    if args.newItem {
      if Truthy(args.title) {
        run := ZotzenCreate(args.title.value, h);
        return;
      }
    }
    run := Run([], None, None, [], [], None);
  }
}
