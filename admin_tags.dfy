/** The admin page's project form: the duplicate-free technology tag list of a new project and
    of the project being edited, and the guards in front of the create-project request. */
module AdminTags {
  import opened Strings

  /** The project fields the form edits. */
  datatype Project = Project(title: string, description: string, technologies: seq<string>,
                             imageUrl: string, githubUrl: string, liveUrl: string,
                             featured: bool, order: int)

  /** A tag list together with the text of the tag input box. */
  datatype TagForm = TagForm(technologies: seq<string>, input: string)

  /** The project being edited, if any, together with the tag input box. */
  datatype EditForm = EditForm(editing: Option<Project>, input: string)

  predicate NoDuplicates(s: seq<string>) {
    forall i, j :: 0 <= i < j < |s| ==> s[i] != s[j]
  }

  /** Adds the trimmed input as a tag when it is not blank and not already listed, then clears
      the input; otherwise leaves both alone. */
  function AddTechnology(techs: seq<string>, input: string): (f: TagForm)
    ensures f.technologies == techs || f.technologies == techs + [Trim(input)]
    ensures f.input == "" <==> f.technologies != techs || input == ""
  {
    var tag := Trim(input);
    if tag != "" && tag !in techs then TagForm(techs + [tag], "") else TagForm(techs, input)
  }

  /** Removes every occurrence of `tech`. */
  function RemoveTechnology(techs: seq<string>, tech: string): (r: seq<string>)
    ensures tech !in r
    ensures forall x :: x != tech ==> multiset(r)[x] == multiset(techs)[x]
  {
    if techs == [] then []
    else
      assert techs == [techs[0]] + techs[1..];
      (if techs[0] == tech then [] else [techs[0]]) + RemoveTechnology(techs[1..], tech)
  }

  /** A blank or already listed tag changes neither the list nor the input; any other tag is
      appended, trimmed, and clears the input. */
  lemma AddTechnologyCases(techs: seq<string>, input: string)
    ensures Trim(input) == "" || Trim(input) in techs ==> AddTechnology(techs, input) == TagForm(techs, input)
    ensures Trim(input) != "" && Trim(input) !in techs ==>
              AddTechnology(techs, input) == TagForm(techs + [Trim(input)], "")
  {
  }

  /** A duplicate-free list stays duplicate-free. */
  lemma AddKeepsNoDuplicates(techs: seq<string>, input: string)
    requires NoDuplicates(techs)
    ensures NoDuplicates(AddTechnology(techs, input).technologies)
  {
    var r := AddTechnology(techs, input).technologies;
    if r != techs {
      forall i, j | 0 <= i < j < |r|
        ensures r[i] != r[j]
      {
        if j == |techs| {
          assert r[i] in techs;
        }
      }
    }
  }

  /** Removal keeps the other tags in their original order: it works element by element, so
      it distributes over concatenation. */
  lemma {:induction false} RemoveDistributes(a: seq<string>, b: seq<string>, tech: string)
    ensures RemoveTechnology(a + b, tech) == RemoveTechnology(a, tech) + RemoveTechnology(b, tech)
    decreases |a|
  {
    if a == [] {
      assert a + b == b;
    } else {
      assert (a + b)[1..] == a[1..] + b;
      RemoveDistributes(a[1..], b, tech);
    }
  }

  /** Removing a tag that is not listed changes nothing. */
  lemma {:induction false} RemoveAbsent(techs: seq<string>, tech: string)
    requires tech !in techs
    ensures RemoveTechnology(techs, tech) == techs
    decreases |techs|
  {
    if techs != [] {
      RemoveAbsent(techs[1..], tech);
    }
  }

  /** Removing a tag just added gives back the list it was added to. */
  lemma AddThenRemove(techs: seq<string>, input: string)
    requires Trim(input) != "" && Trim(input) !in techs
    ensures RemoveTechnology(AddTechnology(techs, input).technologies, Trim(input)) == techs
  {
    RemoveDistributes(techs, [Trim(input)], Trim(input));
    RemoveAbsent(techs, Trim(input));
  }

  /** The edit-form variant. With no project being edited, a non-blank input is still
      cleared, since the membership test on the missing project is treated as "not listed". */
  function AddTechnologyToEdit(editing: Option<Project>, input: string): (f: EditForm)
    ensures f.editing.None? <==> editing.None?
  {
    var tag := Trim(input);
    if tag != "" && !(editing.Some? && tag in editing.value.technologies) then
      EditForm(if editing.Some? then Some(editing.value.(technologies := editing.value.technologies + [tag])) else None, "")
    else EditForm(editing, input)
  }

  function RemoveTechnologyFromEdit(editing: Option<Project>, tech: string): (e: Option<Project>)
    ensures e.None? <==> editing.None?
  {
    if editing.Some? then Some(editing.value.(technologies := RemoveTechnology(editing.value.technologies, tech)))
    else None
  }

  /** On a project being edited, the edit variants do what the new-project variants do to its
      tag list and to the input, and touch no other field. */
  lemma EditVariantsAgree(p: Project, input: string, tech: string)
    ensures var f := AddTechnologyToEdit(Some(p), input);
            var g := AddTechnology(p.technologies, input);
            f.editing == Some(p.(technologies := g.technologies)) && f.input == g.input
    ensures RemoveTechnologyFromEdit(Some(p), tech) == Some(p.(technologies := RemoveTechnology(p.technologies, tech)))
  {
  }

  /** With no project being edited, adding clears a non-blank input and nothing else. */
  lemma AddToMissingProject(input: string)
    ensures AddTechnologyToEdit(None, input) ==
              EditForm(None, if Trim(input) != "" then "" else input)
  {
  }

  /** The outcome of pressing "add project". */
  datatype AddOutcome = NoToken | MissingText | MissingImage | Send(data: Project)

  /** No stored admin token: nothing happens; a missing title or description, or a missing
      image URL, is reported and nothing is sent; otherwise the form is sent as is. */
  function AddProjectRequest(token: Option<string>, p: Project): (o: AddOutcome)
    ensures o.Send? <==> token.Some? && token.value != "" && p.title != "" && p.description != "" && p.imageUrl != ""
    ensures o.Send? ==> o.data == p
    ensures o == MissingImage ==> p.title != "" && p.description != ""
  {
    if token.None? || token.value == "" then NoToken
    else if p.title == "" || p.description == "" then MissingText
    else if p.imageUrl == "" then MissingImage
    else Send(p)
  }
}
