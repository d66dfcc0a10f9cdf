/**
 * The factory that creates project builders for the sample projects: it parses the language
 * name and copies the run configuration onto a new builder.
 */
module Factories {
  import opened Wrappers
  import opened Text
  import opened Configuration

  datatype ProgrammingLanguage = CSharp | VB | FSharp | Other

  /** The upper-case spellings the parser recognises, with the language each names. */
  const LanguageNames: map<string, ProgrammingLanguage> :=
    map["CSHARP" := CSharp, "C#" := CSharp,
        "VB" := VB, "VB.NET" := VB, "VBNET" := VB,
        "FSHARP" := FSharp, "F#" := FSharp]

  /**
   * The language a name stands for, ignoring case: a recognised spelling gives its language and
   * every other string gives `Other`.
   */
  function ParseProgrammingLanguage(input: string): (language: ProgrammingLanguage)
    ensures ToUpper(input) in LanguageNames ==> language == LanguageNames[ToUpper(input)]
    ensures ToUpper(input) !in LanguageNames ==> language == Other
  {
    match ToUpper(input)
    case "CSHARP" => CSharp
    case "C#" => CSharp
    case "VB" => VB
    case "VB.NET" => VB
    case "VBNET" => VB
    case "FSHARP" => FSharp
    case "F#" => FSharp
    case _ => Other
  }

  /** Parsing ignores case: a name and its upper-case form name the same language. */
  lemma ParseIgnoresCase(input: string)
    ensures ParseProgrammingLanguage(input) == ParseProgrammingLanguage(ToUpper(input))
  {
    ToUpperIdempotent(input);
  }

  /** Only the recognised spellings give a language other than `Other`. */
  lemma ParseRecognisesOnlyKnownNames(input: string)
    ensures ParseProgrammingLanguage(input) != Other <==> ToUpper(input) in LanguageNames
  {
  }

  /** One recognised spelling per concrete language; `Other` has none. */
  function LanguageName(language: ProgrammingLanguage): string {
    match language
    case CSharp => "C#"
    case VB => "VB"
    case FSharp => "F#"
    case Other => ""
  }

  /** Every concrete language's name parses back to that language. */
  lemma ParseLanguageName(language: ProgrammingLanguage)
    requires language != Other
    ensures ParseProgrammingLanguage(LanguageName(language)) == language
  {
    ToUpperOfUpperCase(LanguageName(language));
  }

  /** Lower- and mixed-case spellings of C# are recognised. */
  lemma ParseCSharpExamples()
    ensures ParseProgrammingLanguage("c#") == CSharp && ParseProgrammingLanguage("CSharp") == CSharp
  {
    UpperCaseOf("c#", "C#");
    UpperCaseOf("CSharp", "CSHARP");
  }

  /** Lower- and mixed-case spellings of VB are recognised. */
  lemma ParseVBExamples()
    ensures ParseProgrammingLanguage("vb.net") == VB && ParseProgrammingLanguage("VbNet") == VB
  {
    UpperCaseOf("vb.net", "VB.NET");
    UpperCaseOf("VbNet", "VBNET");
  }

  /** Lower- and mixed-case spellings of F# are recognised. */
  lemma ParseFSharpExamples()
    ensures ParseProgrammingLanguage("f#") == FSharp && ParseProgrammingLanguage("fsharp") == FSharp
  {
    UpperCaseOf("f#", "F#");
    UpperCaseOf("fsharp", "FSHARP");
  }

  /** An unknown name and the empty string both give `Other`; nothing is rejected. */
  lemma ParseOtherExamples()
    ensures ParseProgrammingLanguage("Java") == Other && ParseProgrammingLanguage("") == Other
  {
  }

  /** `upper` is the ASCII upper-case form of `s`, checked character by character. */
  lemma UpperCaseOf(s: string, upper: string)
    requires |s| == |upper| && forall i :: 0 <= i < |s| ==> UpperChar(s[i]) == upper[i]
    ensures ToUpper(s) == upper
  {
    forall i | 0 <= i < |s| ensures ToUpper(s)[i] == upper[i] {
      ToUpperAt(s, i);
    }
  }

  /** A builder for one sample project; only the fields the factory sets are modelled. */
  class ProjectBuilder {
    var ProjectName: string
    var TargetFramework: TargetFramework
    var Format: ProjectFormat
    var ConfigurationFormat: ConfigurationFormat
    var Language: ProgrammingLanguage
    /** `Configuration.UnitTestProvider` of the builder's configuration. */
    var UnitTestProvider: UnitTestProvider

    /** The project name the builder gives itself when it is created; how it is chosen is not part of this model. */
    const InitialName: string

    /** A new builder starts under its own initial name; its other fields hold defaults this model does not fix. */
    constructor ()
      ensures ProjectName == InitialName
    {
      new;
      ProjectName := InitialName;
    }
  }

  class ProjectBuilderFactory {
    const testProjectFolders: TestProjectFolders
    const testRunConfiguration: TestRunConfiguration

    /** Keeps the folders and the run configuration; the other collaborators are not part of this model. */
    constructor (testProjectFolders: TestProjectFolders, testRunConfiguration: TestRunConfiguration)
      ensures this.testProjectFolders == testProjectFolders && this.testRunConfiguration == testRunConfiguration
    {
      this.testProjectFolders := testProjectFolders;
      this.testRunConfiguration := testRunConfiguration;
    }

    /** A new builder, still under the name it gave itself. */
    method CreateProjectBuilder() returns (project: ProjectBuilder)
      ensures fresh(project) && project.ProjectName == project.InitialName
    {
      project := new ProjectBuilder();
    }

    /** The builder `CreateProjectInternal` returns: the run configuration's values and the given language. */
    ghost predicate Configured(project: ProjectBuilder, language: ProgrammingLanguage)
      reads project
    {
      && project.TargetFramework == testRunConfiguration.TargetFramework
      && project.Format == testRunConfiguration.ProjectFormat
      && project.ConfigurationFormat == testRunConfiguration.ConfigurationFormat
      && project.Language == language
      && project.UnitTestProvider == testRunConfiguration.UnitTestProvider
    }

    /**
     * A new builder with the run configuration's framework, formats and provider and the given
     * language; its name is the given one when that is not null or blank, and the builder's own
     * initial name otherwise.
     */
    method CreateProjectInternal(projectName: Option<string>, language: ProgrammingLanguage) returns (project: ProjectBuilder)
      ensures fresh(project) && Configured(project, language)
      ensures project.ProjectName == if IsNotNullOrWhiteSpace(projectName) then projectName.value else project.InitialName
    {
      project := CreateProjectBuilder();
      project.TargetFramework := testRunConfiguration.TargetFramework;
      project.Format := testRunConfiguration.ProjectFormat;
      project.ConfigurationFormat := testRunConfiguration.ConfigurationFormat;
      project.Language := language;

      project.UnitTestProvider := testRunConfiguration.UnitTestProvider;

      if IsNotNullOrWhiteSpace(projectName) {
        project.ProjectName := projectName.value;
      }
    }

    /** `CreateProject(string language)`: no project name, so the builder keeps its initial name. */
    method CreateProject(language: string) returns (project: ProjectBuilder)
      ensures fresh(project) && Configured(project, ParseProgrammingLanguage(language))
      ensures project.ProjectName == project.InitialName
    {
      project := CreateProjectInternal(None, ParseProgrammingLanguage(language));
    }

    /** `CreateProject(string projectName, string language)`. */
    method CreateNamedProject(projectName: Option<string>, language: string) returns (project: ProjectBuilder)
      ensures fresh(project) && Configured(project, ParseProgrammingLanguage(language))
      ensures project.ProjectName == if IsNotNullOrWhiteSpace(projectName) then projectName.value else project.InitialName
    {
      project := CreateProjectInternal(projectName, ParseProgrammingLanguage(language));
    }

    /** `CreateProject(string projectName, ProgrammingLanguage language)`. */
    method CreateNamedProjectIn(projectName: Option<string>, language: ProgrammingLanguage) returns (project: ProjectBuilder)
      ensures fresh(project) && Configured(project, language)
      ensures project.ProjectName == if IsNotNullOrWhiteSpace(projectName) then projectName.value else project.InitialName
    {
      project := CreateProjectInternal(projectName, language);
    }
  }
}
