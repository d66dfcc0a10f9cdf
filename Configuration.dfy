/**
 * The configuration values the execution driver and the project factory read. Their declarations
 * (`TestRunConfiguration`, `TestProjectFolders` and the enumerations) are not part of this model;
 * only the members those two classes use appear here.
 */
module Configuration {

  /** The unit-test framework of a run; only `SpecRun` is singled out by the code modelled here. */
  datatype UnitTestProvider = SpecRun | MSTest | NUnit2 | NUnit3 | XUnit

  /** Old-style (full .NET Framework) or SDK-style project files. */
  datatype ProjectFormat = Old | New

  /** The format of the generated test-framework configuration file. */
  datatype ConfigurationFormat = NoConfiguration | AppConfig | Json

  /** A target framework, identified by its moniker. */
  datatype TargetFramework = TargetFramework(moniker: string)

  /** The settings one acceptance-test run is configured with. */
  datatype TestRunConfiguration = TestRunConfiguration(
    UnitTestProvider: UnitTestProvider,
    ProjectFormat: ProjectFormat,
    ConfigurationFormat: ConfigurationFormat,
    TargetFramework: TargetFramework)

  /** The paths of the generated sample solution. */
  datatype TestProjectFolders = TestProjectFolders(
    ProjectFolder: string,
    PathToSolutionFile: string,
    PathToNuGetPackages: string)
}
