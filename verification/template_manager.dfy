/** The prompt-template registry (`PromptManager`): templates indexed by
    category and language, loaded from the files under `agents/`. The
    directory walk and file reads are inputs: the model receives the walk's
    entries, in the walk's order, each with its text or `None` when reading
    it failed. */
module Templates {
  import opened Wrappers
  import opened Text
  import opened Dicts

  const DefaultLanguage: string := "zh"

  /** An entry found below `agents/`: the directories between `agents/` and
      the entry, its file name, and its text (`None` when `open` or `read`
      raised, e.g. for a directory whose name ends in `.txt`). */
  datatype TemplateFile = TemplateFile(dirs: seq<string>, name: string, content: Option<string>)

  datatype PromptManager = PromptManager(templates: Dict<string, Dict<string, string>>)

  datatype TemplateError =
    | TemplateNotFound(category: string, language: string)
    | RenderFailed(detail: string)

  // Matched by the glob `**/*.txt` (any depth below `agents/`).
  predicate IsTxt(name: string) {
    |name| >= 4 && name[|name| - 4..] == ".txt"
  }

  /** Index of the last `.` in `s[..n]`, Python's `rfind`. */
  function LastDot(s: string, n: nat): (r: Option<nat>)
    requires n <= |s|
    ensures r.Some? ==> r.value < n && s[r.value] == '.'
    ensures r.Some? ==> forall j :: r.value < j < n ==> s[j] != '.'
    ensures r.None? ==> forall j :: 0 <= j < n ==> s[j] != '.'
    decreases n
  {
    if n == 0 then None
    else if s[n - 1] == '.' then Some(n - 1)
    else LastDot(s, n - 1)
  }

  /** `Path(name).stem`: the name without its last suffix, where a suffix
      starts at the last dot unless that dot is the first or last character. */
  function Stem(name: string): string {
    match LastDot(name, |name|)
    case Some(i) => if 0 < i < |name| - 1 then name[..i] else name
    case None => name
  }

  /** For a `*.txt` file the category is the name minus `.txt`, except for
      the bare name `.txt`, which has no suffix. */
  lemma StemOfTxt(name: string)
    requires IsTxt(name)
    ensures |name| > 4 ==> Stem(name) == name[..|name| - 4]
    ensures |name| == 4 ==> Stem(name) == name
  {
    assert name[|name| - 4] == '.';
    assert name[|name| - 3..] == "txt";
    assert LastDot(name, |name|) == Some(|name| - 4);
  }

  /** The language of a template: the parent directory's name, or `zh` when
      the parent directory is called `agents` (the top-level directory or a
      nested one of the same name). */
  function Language(f: TemplateFile): (lang: string)
    ensures |f.dirs| == 0 ==> lang == DefaultLanguage
    ensures |f.dirs| > 0 && f.dirs[|f.dirs| - 1] != "agents" ==> lang == f.dirs[|f.dirs| - 1]
    ensures |f.dirs| > 0 && f.dirs[|f.dirs| - 1] == "agents" ==> lang == DefaultLanguage
  {
    if |f.dirs| == 0 || f.dirs[|f.dirs| - 1] == "agents" then DefaultLanguage
    else f.dirs[|f.dirs| - 1]
  }

  /** The entry is loaded as template `(category, lang)`. */
  predicate Provides(f: TemplateFile, category: string, lang: string) {
    IsTxt(f.name) && f.content.Some? && Stem(f.name) == category && Language(f) == lang
  }

  /** `get_template`: `templates.get(category, {}).get(language)`. */
  function GetIn(t: Dict<string, Dict<string, string>>, category: string, language: string): Option<string> {
    match Get(t, category)
    case Some(inner) => Get(inner, language)
    case None => None
  }

  function GetTemplate(pm: PromptManager, category: string, language: string): (r: Option<string>)
    ensures r.Some? ==> HasKey(pm.templates, category)
  {
    GetIn(pm.templates, category, language)
  }

  /** One step of the scan: a readable `*.txt` entry is stored, others skipped. */
  function AddFile(t: Dict<string, Dict<string, string>>, f: TemplateFile): Dict<string, Dict<string, string>> {
    if !IsTxt(f.name) || f.content.None? then t
    else
      var category := Stem(f.name);
      var inner := Get(t, category).GetOr(Empty());
      Put(t, category, Put(inner, Language(f), f.content.value))
  }

  /** The scan over `entries`, in order, on top of `t`. */
  function LoadInto(t: Dict<string, Dict<string, string>>, entries: seq<TemplateFile>): Dict<string, Dict<string, string>>
    decreases |entries|
  {
    if |entries| == 0 then t
    else AddFile(LoadInto(t, entries[..|entries| - 1]), entries[|entries| - 1])
  }

  /** Independent reference: the text of the last entry that provides
      `(category, lang)`. */
  function LastProvided(entries: seq<TemplateFile>, category: string, lang: string): Option<string>
    decreases |entries|
  {
    if |entries| == 0 then None
    else if Provides(entries[|entries| - 1], category, lang) then entries[|entries| - 1].content
    else LastProvided(entries[..|entries| - 1], category, lang)
  }

  /** `_load_templates`: `None` stands for a missing `agents/` directory,
      which loads nothing. */
  function Load(scan: Option<seq<TemplateFile>>): Dict<string, Dict<string, string>> {
    match scan
    case None => Empty()
    case Some(entries) => LoadInto(Empty(), entries)
  }

  /** `PromptManager(base_directory)`. */
  function NewPromptManager(scan: Option<seq<TemplateFile>>): PromptManager {
    PromptManager(Load(scan))
  }

  /** The scan stores, for every category and language, the text of the last
      entry providing it, and keeps whatever the scan does not provide. */
  lemma {:induction false} LoadIntoLookup(t: Dict<string, Dict<string, string>>, entries: seq<TemplateFile>, category: string, lang: string)
    ensures GetIn(LoadInto(t, entries), category, lang)
            == if LastProvided(entries, category, lang).Some? then LastProvided(entries, category, lang)
               else GetIn(t, category, lang)
    decreases |entries|
  {
    if |entries| > 0 {
      var init := entries[..|entries| - 1];
      LoadIntoLookup(t, init, category, lang);
    }
  }

  /** The entry is loaded under `category`, whatever its language. */
  predicate ProvidesCategory(f: TemplateFile, category: string) {
    IsTxt(f.name) && f.content.Some? && Stem(f.name) == category
  }

  /** Independent reference: some entry is loaded under `category`. */
  predicate AnyProvidesCategory(entries: seq<TemplateFile>, category: string)
    decreases |entries|
  {
    |entries| > 0
    && (ProvidesCategory(entries[|entries| - 1], category)
        || AnyProvidesCategory(entries[..|entries| - 1], category))
  }

  /** A category is available exactly when the registry had it or some
      readable `*.txt` entry has it as its stem. */
  lemma {:induction false} LoadIntoCategories(t: Dict<string, Dict<string, string>>, entries: seq<TemplateFile>, category: string)
    ensures HasKey(LoadInto(t, entries), category)
            <==> HasKey(t, category) || AnyProvidesCategory(entries, category)
    decreases |entries|
  {
    if |entries| > 0 {
      LoadIntoCategories(t, entries[..|entries| - 1], category);
    }
  }

  /** Loading from a missing directory yields no template at all. */
  lemma MissingDirectoryLoadsNothing(category: string, lang: string)
    ensures |Load(None)| == 0
    ensures GetTemplate(NewPromptManager(None), category, lang).None?
  {
  }

  /** `render_template`: a missing or empty template raises; otherwise the
      text goes to the template engine `render` (with the caller's variables
      already bound), which fails on a malformed template or an undefined
      variable. */
  function RenderTemplate(pm: PromptManager, category: string, language: string,
                          render: string -> Result<string, string>): (r: Result<string, TemplateError>)
    ensures r.Failure? <==> !Truthy(GetTemplate(pm, category, language))
                            || render(GetTemplate(pm, category, language).value).Failure?
    ensures !Truthy(GetTemplate(pm, category, language)) ==> r == Failure(TemplateNotFound(category, language))
    ensures Truthy(GetTemplate(pm, category, language)) && r.Failure? ==>
              r.error == RenderFailed(render(GetTemplate(pm, category, language).value).error)
    ensures r.Success? ==> r.value == render(GetTemplate(pm, category, language).value).value
  {
    var t := GetTemplate(pm, category, language);
    if !Truthy(t) then Failure(TemplateNotFound(category, language))
    else
      match render(t.value)
      case Failure(e) => Failure(RenderFailed(e))
      case Success(text) => Success(text)
  }

  /** `validate_template`: present and not only whitespace. */
  function ValidateTemplate(pm: PromptManager, category: string, language: string): (ok: bool)
    ensures ok <==> GetTemplate(pm, category, language).Some?
                    && !IsBlank(GetTemplate(pm, category, language).value)
  {
    var t := GetTemplate(pm, category, language);
    if t.None? then false
    else
      StripEmptyIffBlank(t.value);
      |Strip(t.value)| > 0
  }

  /** `get_available_templates`: the categories in load order. */
  function GetAvailableTemplates(pm: PromptManager): (cs: seq<string>)
    ensures forall c :: c in cs <==> HasKey(pm.templates, c)
    ensures forall i, j :: 0 <= i < j < |cs| ==> cs[i] != cs[j]
  {
    Keys(pm.templates)
  }

  /** `reload_templates`: clear, then scan again. */
  function ReloadTemplates(pm: PromptManager, scan: Option<seq<TemplateFile>>): (r: PromptManager)
    ensures forall c, l :: GetTemplate(r, c, l)
              == if scan.Some? then LastProvided(scan.value, c, l) else None
  {
    forall c, l ensures GetIn(Load(scan), c, l) == if scan.Some? then LastProvided(scan.value, c, l) else None {
      if scan.Some? { LoadIntoLookup(Empty(), scan.value, c, l); }
    }
    PromptManager(Load(scan))
  }

  /** A template that validates always passes the lookup guard: rendering
      it can fail only inside the template engine. */
  lemma ValidPassesLookupGuard(pm: PromptManager, category: string, language: string,
                               render: string -> Result<string, string>)
    ensures ValidateTemplate(pm, category, language) ==>
      && (RenderTemplate(pm, category, language, render).Success? <==> render(GetTemplate(pm, category, language).value).Success?)
      && (RenderTemplate(pm, category, language, render).Failure? ==>
            RenderTemplate(pm, category, language, render).error.RenderFailed?)
  {
  }

  const ScenarioScan: seq<TemplateFile> := [
    TemplateFile([], "world_form.txt", Some("世界设定: {{ setting }}")),
    TemplateFile(["en"], "world_form.txt", Some("World Setting: {{ setting }}")),
    TemplateFile([], "empty_template.txt", Some("   "))]

  lemma ScenarioProvides()
    ensures LastProvided(ScenarioScan, "world_form", "zh") == Some("世界设定: {{ setting }}")
    ensures LastProvided(ScenarioScan, "world_form", "en") == Some("World Setting: {{ setting }}")
    ensures LastProvided(ScenarioScan, "empty_template", "zh") == Some("   ")
    ensures LastProvided(ScenarioScan, "non_existent_template", "zh").None?
  {
    StemOfTxt("world_form.txt");
    StemOfTxt("empty_template.txt");
    assert Stem("world_form.txt") == "world_form";
    assert Stem("empty_template.txt") == "empty_template";
    var es := ScenarioScan;
    assert es[..2][..1] == es[..1];
    assert es[..1][..0] == [];
    var missing := "non_existent_template";
    assert !Provides(es[2], missing, "zh") && !Provides(es[1], missing, "zh") && !Provides(es[0], missing, "zh");
    assert LastProvided(es[..1], missing, "zh") == LastProvided(es[..1][..0], missing, "zh");
    assert LastProvided(es[..2], missing, "zh") == LastProvided(es[..2][..1], missing, "zh");
  }

  /** The registry built from a top-level `world_form.txt`, an `en/`
      variant and a whitespace-only `empty_template.txt`. */
  lemma LoadScenario(render: string -> Result<string, string>)
    ensures var pm := NewPromptManager(Some(ScenarioScan));
      && GetTemplate(pm, "world_form", "zh") == Some("世界设定: {{ setting }}")
      && GetTemplate(pm, "world_form", "en") == Some("World Setting: {{ setting }}")
      && GetTemplate(pm, "non_existent_template", "zh").None?
      && ValidateTemplate(pm, "world_form", "en")
      && !ValidateTemplate(pm, "empty_template", "zh")
      && (RenderTemplate(pm, "empty_template", "zh", render).Success? <==> render("   ").Success?)
      && RenderTemplate(pm, "non_existent_template", "zh", render)
           == Failure(TemplateNotFound("non_existent_template", "zh"))
  {
    ScenarioProvides();
    LoadIntoLookup(Empty(), ScenarioScan, "world_form", "zh");
    LoadIntoLookup(Empty(), ScenarioScan, "world_form", "en");
    LoadIntoLookup(Empty(), ScenarioScan, "empty_template", "zh");
    LoadIntoLookup(Empty(), ScenarioScan, "non_existent_template", "zh");
    assert IsSpace("   "[0]) && IsSpace("   "[1]) && IsSpace("   "[2]);
    assert !IsSpace("World Setting: {{ setting }}"[0]);
  }
}
