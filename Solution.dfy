/** The in-memory solution of the new project-generation API: a named list of projects. */
module Memory {
  import opened Wrappers

  /** A project of the solution; its contents are not part of this model. */
  class Project {
    constructor () {}
  }

  /** The exception `AddProject` throws for a null project, naming the parameter. */
  datatype ArgumentNullException = ArgumentNullException(paramName: string)

  class Solution {
    /** The private project list; `Projects` is a read-only view of it. */
    var projects: seq<Project>
    var v: string
    var Name: Option<string>

    /** The read-only view: it reads the list itself, so it always shows the current contents. */
    function Projects(): seq<Project>
      reads this
    {
      projects
    }

    /** A new solution has no projects and no name yet. */
    constructor (v: string)
      ensures Projects() == [] && this.v == v && Name == None
    {
      projects := [];
      this.v := v;
      Name := None;
    }

    /**
     * Appends a project at the end, keeping the earlier ones in order; a null project is
     * refused with an `ArgumentNullException` and the list stays as it was.
     */
    method AddProject(project: Project?) returns (outcome: Outcome<ArgumentNullException>)
      modifies this
      ensures project == null ==> outcome == Fail(ArgumentNullException("project")) && Projects() == old(Projects())
      ensures project != null ==> outcome == Pass && Projects() == old(Projects()) + [project]
      ensures v == old(v) && Name == old(Name)
    {
      if project == null {
        return Fail(ArgumentNullException("project"));
      }
      projects := projects + [project];
      outcome := Pass;
    }
  }
}
