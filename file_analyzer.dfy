/**
 * Per-file analysis: a category from the extension and the directory, a role
 * from the file name, the directory and the first commit's message, a
 * complexity level from the number of non-blank lines, and capped lists of
 * dependencies and key definitions, assembled into one record with a
 * one-line summary.
 */
module FileAnalyzer {
  import opened Wrappers
  import opened Strings
  import opened Seqs

  // ----- os.path -----

  predicate AllChar(s: string, c: char) {
    forall i :: 0 <= i < |s| ==> s[i] == c
  }

  predicate NoSlash(s: string) {
    forall i :: 0 <= i < |s| ==> s[i] != '/'
  }

  /** `os.path.basename`: the text after the last '/'. */
  function Basename(path: string): (name: string)
    ensures NoSlash(name) && EndsWith(path, name)
  {
    var i := LastIndexOf(path, '/');
    path[i + 1..]
  }

  /** `os.path.dirname`: the text before the last '/', trailing slashes removed unless it is all slashes. */
  function Dirname(path: string): string {
    var i := LastIndexOf(path, '/');
    var head := path[..i + 1];
    if AllChar(head, '/') then head else StripTrailing(head, '/')
  }

  /** A path built from a directory and a name splits back into the two. */
  lemma PathRoundTrip(dir: string, name: string)
    requires NoSlash(name)
    requires dir != [] && dir[|dir| - 1] != '/'
    ensures Basename(dir + "/" + name) == name
    ensures Dirname(dir + "/" + name) == dir
  {
    var path := dir + "/" + name;
    var i := LastIndexOf(path, '/');
    assert path[|dir|] == '/';
    assert forall j :: |dir| < j < |path| ==> path[j] == name[j - |dir| - 1];
    assert i == |dir|;
    assert path[i + 1..] == name;
    var head := path[..i + 1];
    assert head == dir + "/";
    assert !AllChar(head, '/') by { assert head[|dir| - 1] != '/'; }
    assert StripTrailing(head, '/') == StripTrailing(dir, '/');
  }

  /** A bare name has no directory. */
  lemma BareNameHasNoDirectory(name: string)
    requires NoSlash(name)
    ensures Basename(name) == name && Dirname(name) == ""
  {
  }

  /**
   * `os.path.splitext(p)[1]`: from the last '.' after the last '/', provided
   * something other than dots precedes it in that last component; otherwise "".
   */
  function Extension(p: string): (ext: string)
    ensures ext == "" || (ext[0] == '.' && EndsWith(p, ext) && |ext| < |p|)
  {
    var sep := LastIndexOf(p, '/');
    var dot := LastIndexOf(p, '.');
    if dot > sep && !AllChar(p[sep + 1..dot], '.') then p[dot..] else ""
  }

  /** The extension of "stem.ext" is ".ext" when the stem holds something other than dots. */
  lemma ExtensionOfStemExt(stem: string, ext: string)
    requires NoSlash(stem) && NoSlash(ext)
    requires forall i :: 0 <= i < |ext| ==> ext[i] != '.'
    requires !AllChar(stem, '.')
    ensures Extension(stem + "." + ext) == "." + ext
  {
    var p := stem + "." + ext;
    assert p[|stem|] == '.';
    assert forall j :: |stem| < j < |p| ==> p[j] == ext[j - |stem| - 1];
    assert LastIndexOf(p, '.') == |stem|;
    assert LastIndexOf(p, '/') == -1;
    assert p[0..|stem|] == stem;
    assert p[|stem|..] == "." + ext;
  }

  /** A dotfile such as ".env" has no extension. */
  lemma DotfileHasNoExtension(ext: string)
    requires NoSlash(ext)
    requires forall i :: 0 <= i < |ext| ==> ext[i] != '.'
    ensures Extension("." + ext) == ""
  {
    var p := "." + ext;
    assert p[0] == '.';
    assert forall j :: 0 < j < |p| ==> p[j] == ext[j - 1];
    assert LastIndexOf(p, '.') == 0;
  }

  // ----- categorize_file -----

  const FrontendExtensions := [".jsx", ".tsx", ".js", ".ts", ".vue", ".svelte"]
  const PythonExtensions := [".py"]
  const ConfigExtensions := [".json", ".yaml", ".yml", ".toml", ".env"]
  const DocExtensions := [".md", ".txt", ".rst"]
  const StyleExtensions := [".css", ".scss", ".sass", ".less"]
  const TestIndicators := ["test_", ".test.", ".spec."]

  const FrontendCategories := {"UI Component", "Frontend Utility", "State Management", "Frontend Logic"}
  const BackendCategories := {"API Endpoint", "Data Model", "Business Logic", "Backend Utility", "Backend Logic"}

  /** `categorize_file`: ordered rules on the extension, the lower-cased directory and the lower-cased path. */
  function CategorizeFile(filePath: string, fileExt: string, dirPath: string): (category: string)
    ensures category != ""
  {
    var dir := ToLower(dirPath);
    if fileExt in FrontendExtensions then
      if ContainsAny(dir, ["components", "pages", "views", "ui"]) then "UI Component"
      else if ContainsAny(dir, ["hooks", "utils", "helpers"]) then "Frontend Utility"
      else if ContainsAny(dir, ["store", "state", "redux"]) then "State Management"
      else "Frontend Logic"
    else if fileExt in PythonExtensions then
      if ContainsAny(dir, ["api", "routes", "endpoints"]) then "API Endpoint"
      else if ContainsAny(dir, ["models", "schemas"]) then "Data Model"
      else if ContainsAny(dir, ["services", "business"]) then "Business Logic"
      else if ContainsAny(dir, ["utils", "helpers"]) then "Backend Utility"
      else "Backend Logic"
    else if fileExt in ConfigExtensions then "Configuration"
    else if fileExt in DocExtensions then "Documentation"
    else if ContainsAny(ToLower(filePath), TestIndicators) then "Test"
    else if fileExt in StyleExtensions then "Styling"
    else "Other"
  }

  /** Outside the test rule, the extension alone decides the family of the category. */
  lemma CategoryFamilies(filePath: string, fileExt: string, dirPath: string)
    ensures var c := CategorizeFile(filePath, fileExt, dirPath);
      && (fileExt in FrontendExtensions <==> c in FrontendCategories)
      && (fileExt in PythonExtensions <==> c in BackendCategories)
      && (c == "Configuration" <==> fileExt in ConfigExtensions)
      && (c == "Documentation" <==> fileExt in DocExtensions)
  {
  }

  /**
   * "Test" is reachable only for an extension outside the frontend, Python,
   * config and doc sets, and then exactly when the path holds a test marker;
   * it wins over the style rule.
   */
  lemma TestCategoryIff(filePath: string, fileExt: string, dirPath: string)
    ensures CategorizeFile(filePath, fileExt, dirPath) == "Test" <==>
      && fileExt !in FrontendExtensions && fileExt !in PythonExtensions
      && fileExt !in ConfigExtensions && fileExt !in DocExtensions
      && ContainsAny(ToLower(filePath), TestIndicators)
  {
  }

  /** "Other" is the fallback: no extension set matches and the path holds no test marker. */
  lemma OtherCategoryIff(filePath: string, fileExt: string, dirPath: string)
    ensures CategorizeFile(filePath, fileExt, dirPath) == "Other" <==>
      && fileExt !in FrontendExtensions && fileExt !in PythonExtensions
      && fileExt !in ConfigExtensions && fileExt !in DocExtensions && fileExt !in StyleExtensions
      && !ContainsAny(ToLower(filePath), TestIndicators)
  {
  }

  // ----- determine_file_role -----

  const DefaultRole := "Contains application logic and functionality"
  const MlRole := "Implements machine learning or neural network model"
  const MlTerms := ["gnn", "model", "ml", "nn", "cnn", "rnn", "lstm", "bert", "transformer"]

  /** The rules on the file name, one constructor per rule in the order they are tried. */
  datatype NameRule =
    | MlModel | Training | Prediction | Dataset | Graph | Utility | ConfigFile | EntryPoint
    | Script | DocFile | Notebook | TestFile | Auth | Schema | Api | UiComponent | Settings
    | Shared | State | Tests | Docs

  /** The role each file-name rule gives. */
  function NameRoleText(rule: NameRule): (text: string)
    ensures text != "" && text != DefaultRole
  {
    match rule
    case MlModel => MlRole
    case Training => "Training script for machine learning models"
    case Prediction => "Performs prediction or inference using models"
    case Dataset => "Processes or loads datasets"
    case Graph => "Processes graph structures or graph data"
    case Utility => "Provides utility functions and helpers"
    case ConfigFile => "Configuration file for project settings"
    case EntryPoint => "Runs the main application or server"
    case Script => "Shell or batch script for automation"
    case DocFile => "Documentation file"
    case Notebook =>
      var text := "Jupyter notebook for experiments or analysis";
      assert text[0] != DefaultRole[0];
      text
    case TestFile => "Test file for validating code functionality"
    case Auth => "Handles user authentication and authorization"
    case Schema => "Defines data models and database schema"
    case Api => "Exposes API endpoints and handles requests"
    case UiComponent => "Renders UI component for user interaction"
    case Settings => "Manages application configuration and settings"
    case Shared => "Provides utility functions and shared logic"
    case State => "Manages application state and data flow"
    case Tests =>
      var text := "Contains tests for application functionality";
      assert text[9] != DefaultRole[9];
      text
    case Docs => "Provides documentation and usage instructions"
  }

  /** The first rule on the lower-cased file name that applies; None when none does. */
  function FilenameRule(name: string): Option<NameRule> {
    if ContainsAny(name, MlTerms) then Some(MlModel)
    else if Contains(name, "train") then Some(Training)
    else if Contains(name, "predict") || Contains(name, "inference") then Some(Prediction)
    else if Contains(name, "data") || Contains(name, "dataset") then Some(Dataset)
    else if Contains(name, "graph") then Some(Graph)
    else if Contains(name, "utils") || Contains(name, "helper") then Some(Utility)
    else if Contains(name, "config") || EndsWith(name, ".yaml") || EndsWith(name, ".yml") || EndsWith(name, ".json") then
      Some(ConfigFile)
    else if name in ["main.py", "app.py", "run.py"] then Some(EntryPoint)
    else if EndsWith(name, ".sh") || EndsWith(name, ".bat") then Some(Script)
    else if EndsWith(name, ".md") then Some(DocFile)
    else if EndsWith(name, ".ipynb") then Some(Notebook)
    else if EndsWith(name, ".test.py") || StartsWith(name, "test_") then Some(TestFile)
    else if ContainsAny(name, ["auth", "login", "register", "jwt", "token"]) then Some(Auth)
    else if ContainsAny(name, ["schema", "database", "db", "orm"]) then Some(Schema)
    else if ContainsAny(name, ["api", "route", "endpoint", "controller"]) then Some(Api)
    else if ContainsAny(name, ["button", "form", "modal", "card", "header", "footer"]) then Some(UiComponent)
    else if ContainsAny(name, ["settings", "env"]) then Some(Settings)
    else if ContainsAny(name, ["common", "shared"]) then Some(Shared)
    else if ContainsAny(name, ["store", "state", "redux", "context"]) then Some(State)
    else if ContainsAny(name, ["test", "spec"]) then Some(Tests)
    else if ContainsAny(name, ["readme", "docs", "guide"]) then Some(Docs)
    else None
  }

  /** The rules on the lower-cased directory, in order. */
  function DirectoryRole(dir: string): (role: Option<string>)
    ensures role.Some? ==> role.value != "" && role.value != DefaultRole
  {
    if Contains(dir, "auth") then Some("Handles authentication and user management")
    else if Contains(dir, "api") then Some("Exposes REST API endpoints")
    else if Contains(dir, "components") then Some("Renders reusable UI components")
    else if Contains(dir, "pages") then Some("Defines application pages and views")
    else if Contains(dir, "services") then Some("Contains business logic and external service integrations")
    else if Contains(dir, "utils") then Some("Provides utility functions and helpers")
    else None
  }

  /**
   * The history rules: only the first commit is looked at, and only when it
   * has a message. `history[k]` is the `message` entry of commit `k`, None
   * when that commit has no such key; a missing history is the empty one.
   */
  function HistoryRole(history: seq<Option<string>>): (role: Option<string>)
    ensures role.Some? ==> role.value != "" && role.value != DefaultRole
  {
    if |history| > 0 && history[0].Some? then
      var message := ToLower(history[0].value);
      if ContainsAny(message, ["add auth", "login", "authentication"]) then Some("Handles user authentication")
      else if ContainsAny(message, ["add api", "endpoint", "route"]) then Some("Exposes API functionality")
      else if ContainsAny(message, ["add component", "ui", "interface"]) then Some("Renders user interface elements")
      else None
    else None
  }

  /** `determine_file_role`: the first rule that applies, file name before directory before history. */
  function DetermineFileRole(filename: string, dirPath: string, history: seq<Option<string>>): (role: string)
    ensures role != ""
  {
    var byName := FilenameRule(ToLower(filename));
    var byDir := DirectoryRole(ToLower(dirPath));
    var byHistory := HistoryRole(history);
    if byName.Some? then NameRoleText(byName.value)
    else if byDir.Some? then byDir.value
    else if byHistory.Some? then byHistory.value
    else DefaultRole
  }

  /** The default role is returned exactly when no rule applies. */
  lemma DefaultRoleIff(filename: string, dirPath: string, history: seq<Option<string>>)
    ensures DetermineFileRole(filename, dirPath, history) == DefaultRole <==>
      FilenameRule(ToLower(filename)).None? && DirectoryRole(ToLower(dirPath)).None? && HistoryRole(history).None?
  {
  }

  /** Any name containing "ml" gets the machine-learning role, whatever the directory or history. */
  lemma MlSubstringWins(filename: string, dirPath: string, history: seq<Option<string>>)
    requires Contains(ToLower(filename), "ml")
    ensures DetermineFileRole(filename, dirPath, history) == MlRole
  {
    assert MlTerms[2] == "ml";
  }

  /** So "index.html" is a machine-learning model. */
  lemma IndexHtmlIsMl(dirPath: string, history: seq<Option<string>>)
    ensures DetermineFileRole("index.html", dirPath, history) == MlRole
  {
    ToLowerNoUpper("index.html");
    assert OccursAt("index.html", "ml", 8);
    MlSubstringWins("index.html", dirPath, history);
  }

  /** Every ".yml" name contains "ml", so the ".yml" test of the configuration rule never decides. */
  lemma YmlNamesGetMlRole(stem: string, dirPath: string, history: seq<Option<string>>)
    ensures DetermineFileRole(stem + ".yml", dirPath, history) == MlRole
  {
    var name := stem + ".yml";
    ToLowerAppend(stem, ".yml");
    ToLowerNoUpper(".yml");
    assert ToLower(name)[|stem| + 2..|stem| + 4] == "ml";
    assert OccursAt(ToLower(name), "ml", |stem| + 2);
    MlSubstringWins(name, dirPath, history);
  }

  /** Commits after the first never change the role. */
  lemma OnlyFirstCommitCounts(filename: string, dirPath: string, h1: seq<Option<string>>, h2: seq<Option<string>>)
    requires |h1| > 0 && |h2| > 0 && h1[0] == h2[0]
    ensures DetermineFileRole(filename, dirPath, h1) == DetermineFileRole(filename, dirPath, h2)
  {
  }

  // ----- assess_complexity -----

  function NonBlankCount(lines: seq<string>): (n: nat)
    ensures n <= |lines|
  {
    if lines == [] then 0
    else NonBlankCount(lines[..|lines| - 1]) + if Trim(lines[|lines| - 1]) != "" then 1 else 0
  }

  /** The level for a number of non-blank lines. */
  function Complexity(n: nat): (level: string)
    ensures level == "low" <==> n < 50
    ensures level == "medium" <==> 50 <= n < 200
    ensures level == "high" <==> 200 <= n
  {
    if n < 50 then "low" else if n < 200 then "medium" else "high"
  }

  function Rank(level: string): nat {
    if level == "low" then 0 else if level == "medium" then 1 else 2
  }

  /** More non-blank lines never lower the level. */
  lemma ComplexityMonotone(n: nat, m: nat)
    requires n <= m
    ensures Rank(Complexity(n)) <= Rank(Complexity(m))
  {
  }

  /** `assess_complexity`: the extension is not consulted. */
  function AssessComplexity(content: string, fileExt: string): (level: string)
    ensures level == Complexity(NonBlankCount(Split(content, '\n')))
  {
    var lines := Split(content, '\n');
    Complexity(NonBlankCount(lines))
  }

  /** Content of fewer than 50 lines is "low" whatever they hold. */
  lemma ShortContentIsLow(content: string, fileExt: string)
    requires |Split(content, '\n')| < 50
    ensures AssessComplexity(content, fileExt) == "low"
  {
  }

  // ----- extract_dependencies and extract_key_functions -----

  const ScriptExtensions := [".js", ".jsx", ".ts", ".tsx"]

  /** The `re.findall` results on the content, one list per pattern. */
  datatype DependencyMatches = DependencyMatches(jsImports: seq<string>, jsRequires: seq<string>, pyImports: seq<string>)

  datatype DefinitionMatches = DefinitionMatches(jsFunctions: seq<string>, pyFunctions: seq<string>, classes: seq<string>)

  function DependencyCandidates(fileExt: string, m: DependencyMatches): seq<string> {
    if fileExt in ScriptExtensions then m.jsImports + m.jsRequires
    else if fileExt == ".py" then m.pyImports
    else []
  }

  /**
   * `list(set(dependencies))[:10]`: distinct, at most 10, all found in the
   * content, and as many as there are distinct ones up to the cap.
   */
  function ExtractDependencies(fileExt: string, m: DependencyMatches): (deps: seq<string>)
    ensures Distinct(deps) && |deps| <= 10
    ensures forall d :: d in deps ==> d in DependencyCandidates(fileExt, m)
    ensures var distinct := Dedupe(DependencyCandidates(fileExt, m));
      |deps| == if |distinct| < 10 then |distinct| else 10
    ensures |Dedupe(DependencyCandidates(fileExt, m))| <= 10 ==>
      forall d :: d in DependencyCandidates(fileExt, m) ==> d in deps
  {
    var distinct := Dedupe(DependencyCandidates(fileExt, m));
    var deps := Prefix(distinct, 10);
    assert forall i, j :: 0 <= i < j < |deps| ==> deps[i] == distinct[i] && deps[j] == distinct[j];
    deps
  }

  /** Files outside the script and Python extensions have no dependencies. */
  lemma OtherFilesHaveNoDependencies(fileExt: string, m: DependencyMatches)
    requires fileExt !in ScriptExtensions && fileExt != ".py"
    ensures ExtractDependencies(fileExt, m) == []
  {
  }

  function DefinitionCandidates(fileExt: string, m: DefinitionMatches): seq<string> {
    if fileExt in ScriptExtensions then m.jsFunctions + m.classes
    else if fileExt == ".py" then m.pyFunctions + m.classes
    else []
  }

  /** `functions[:5]`: the first five definitions found, functions before classes. */
  function ExtractKeyFunctions(fileExt: string, m: DefinitionMatches): (names: seq<string>)
    ensures |names| <= 5 && names <= DefinitionCandidates(fileExt, m)
    ensures |names| == if |DefinitionCandidates(fileExt, m)| < 5 then |DefinitionCandidates(fileExt, m)| else 5
  {
    Prefix(DefinitionCandidates(fileExt, m), 5)
  }

  /** Function matches come first: classes appear only when there are fewer than five functions. */
  lemma FunctionsBeforeClasses(fileExt: string, m: DefinitionMatches)
    requires fileExt in ScriptExtensions || fileExt == ".py"
    ensures var functions := if fileExt in ScriptExtensions then m.jsFunctions else m.pyFunctions;
      var names := ExtractKeyFunctions(fileExt, m);
      && (|functions| >= 5 ==> names == functions[..5])
      && (|functions| < 5 ==> names == functions + Prefix(m.classes, 5 - |functions|))
  {
    var functions := if fileExt in ScriptExtensions then m.jsFunctions else m.pyFunctions;
    var all := functions + m.classes;
    assert DefinitionCandidates(fileExt, m) == all;
    if |functions| >= 5 {
      assert all[..5] == functions[..5];
    } else {
      var k := 5 - |functions|;
      if |m.classes| < k {
        assert Prefix(all, 5) == all;
      } else {
        assert all[..5] == functions + m.classes[..k];
      }
    }
  }

  // ----- analyze_file_role -----

  datatype RoleData = RoleData(
    role: string,
    category: string,
    complexity: string,
    dependencies: seq<string>,
    keyFunctions: seq<string>,
    summary: string)

  const Dash := " \U{2013} "

  /** The summary rule as written, with its three branches. */
  function Summary(filename: string, role: string, category: string): string {
    if role != "" && role != DefaultRole then filename + Dash + role
    else if category != "" then filename + Dash + category
    else filename + Dash + "Source code file"
  }

  /**
   * Role and category are never empty, so the summary names the role, or the
   * category when the role is the default; "Source code file" never appears.
   */
  lemma SummaryNamesRoleOrCategory(filePath: string, history: seq<Option<string>>)
    ensures var filename := Basename(filePath);
      var ext := ToLower(Extension(filename));
      var role := DetermineFileRole(filename, Dirname(filePath), history);
      var category := CategorizeFile(filePath, ext, Dirname(filePath));
      Summary(filename, role, category) == filename + Dash + (if role != DefaultRole then role else category)
  {
  }

  /**
   * `analyze_file_role`: the record is filled field by field. `content` is
   * the file's text, None when it does not exist or cannot be read; the
   * match lists are what the patterns find in that text.
   */
  method AnalyzeFileRole(filePath: string, history: seq<Option<string>>, content: Option<string>,
                         depMatches: DependencyMatches, defMatches: DefinitionMatches)
    returns (roleData: RoleData)
    ensures var filename := Basename(filePath);
      var ext := ToLower(Extension(filename));
      && roleData.category == CategorizeFile(filePath, ext, Dirname(filePath))
      && roleData.role == DetermineFileRole(filename, Dirname(filePath), history)
      && (content.None? ==> roleData.complexity == "low" && roleData.dependencies == [] && roleData.keyFunctions == [])
      && (content.Some? ==>
        && roleData.complexity == AssessComplexity(content.value, ext)
        && roleData.dependencies == ExtractDependencies(ext, depMatches)
        && roleData.keyFunctions == ExtractKeyFunctions(ext, defMatches))
      && roleData.summary == Summary(filename, roleData.role, roleData.category)
  {
    roleData := RoleData("", "", "low", [], [], "");
    var filename := Basename(filePath);
    var fileExt := ToLower(Extension(filename));
    var dirPath := Dirname(filePath);
    roleData := roleData.(category := CategorizeFile(filePath, fileExt, dirPath));
    roleData := roleData.(role := DetermineFileRole(filename, dirPath, history));
    if content.Some? {
      roleData := roleData.(complexity := AssessComplexity(content.value, fileExt));
      roleData := roleData.(dependencies := ExtractDependencies(fileExt, depMatches));
      roleData := roleData.(keyFunctions := ExtractKeyFunctions(fileExt, defMatches));
    }
    var summary;
    if roleData.role != "" && roleData.role != DefaultRole {
      summary := filename + Dash + roleData.role;
    } else if roleData.category != "" {
      summary := filename + Dash + roleData.category;
    } else {
      summary := filename + Dash + "Source code file";
    }
    roleData := roleData.(summary := summary);
  }
}
