/** The master CV model as text (`utils/cv_text.py`). */
module CvText {
  import opened Text

  datatype Experience = Experience(
    role: string, companyInfo: string, context: string, dates: string, highlights: seq<string>)

  datatype Project = Project(
    heading: string, year: string, description: string,
    highlights: seq<string>, stack: string, links: seq<string>)

  datatype CvData = CvData(
    title: string, summary: string, skills: seq<(string, string)>,
    experience: seq<Experience>, projects: seq<Project>)

  function Present(values: seq<string>): seq<string> {
    if values == [] then []
    else Present(values[..|values| - 1]) + (if values[|values| - 1] == "" then [] else [values[|values| - 1]])
  }

  function Bulleted(highlights: seq<string>): (r: seq<string>)
    ensures |r| == |highlights|
  {
    seq(|highlights|, i requires 0 <= i < |highlights| => "• " + highlights[i])
  }

  /** The document paragraphs of one experience entry; the first one is the role. */
  function ExperienceLines(e: Experience): (r: seq<string>)
    ensures r != [] && r[0] == e.role
  {
    [e.role] + Present([e.companyInfo, e.context, e.dates]) + Bulleted(e.highlights)
  }

  function ProjectLines(p: Project): seq<string> {
    [p.heading] + Present([p.year]) + Present([p.description])
    + (if p.highlights == [] then [] else ["Key Highlights:"] + Bulleted(p.highlights))
    + (if p.stack == "" then [] else ["Tech Stack:", p.stack])
    + p.links
  }

  function SkillLines(skills: seq<(string, string)>): seq<string> {
    if skills == [] then []
    else
      var last := skills[|skills| - 1];
      SkillLines(skills[..|skills| - 1]) + [last.0, last.1]
  }

  /** The role opens its block with a newline; the read-only guard compares the bare lines. */
  function ExperienceBlock(entries: seq<Experience>): seq<string> {
    if entries == [] then []
    else
      var lines := ExperienceLines(entries[|entries| - 1]);
      ExperienceBlock(entries[..|entries| - 1]) + ["\n" + lines[0]] + lines[1..]
  }

  function ProjectBlock(projects: seq<Project>): seq<string> {
    if projects == [] then []
    else ProjectBlock(projects[..|projects| - 1]) + ProjectLines(projects[|projects| - 1])
  }

  function CvLines(cv: CvData): seq<string> {
    [cv.title, "\nSUMMARY:", cv.summary, "\nRELEVANT SKILLS:"]
    + SkillLines(cv.skills)
    + ["\nPROFESSIONAL EXPERIENCE:"] + ExperienceBlock(cv.experience)
    + (if cv.projects == [] then [] else ["\nPET PROJECTS:"] + ProjectBlock(cv.projects))
  }

  /** The text every prompt receives and every replacement target is copied from. */
  function CvDataToTextSpec(cv: CvData): string {
    Join(CvLines(cv), '\n')
  }

  /** `cv_data_to_text`. */
  method CvDataToText(cv: CvData) returns (text: string)
    ensures text == CvDataToTextSpec(cv)
  {
    var lines := [cv.title, "\nSUMMARY:", cv.summary, "\nRELEVANT SKILLS:"];
    var skills := RenderSkills(cv.skills);
    lines := lines + skills;
    lines := lines + ["\nPROFESSIONAL EXPERIENCE:"];
    var experience := RenderExperience(cv.experience);
    lines := lines + experience;
    if cv.projects != [] {
      var projects := RenderProjects(cv.projects);
      lines := lines + (["\nPET PROJECTS:"] + projects);
    }
    assert lines == CvLines(cv);
    text := Join(lines, '\n');
  }

  method RenderSkills(skills: seq<(string, string)>) returns (lines: seq<string>)
    ensures lines == SkillLines(skills)
  {
    lines := [];
    var i := 0;
    while i < |skills|
      invariant i <= |skills| && lines == SkillLines(skills[..i])
    {
      assert skills[..i + 1][..i] == skills[..i];
      lines := lines + [skills[i].0, skills[i].1];
      i := i + 1;
    }
    assert skills[..i] == skills;
  }

  method RenderExperience(entries: seq<Experience>) returns (lines: seq<string>)
    ensures lines == ExperienceBlock(entries)
  {
    lines := [];
    var i := 0;
    while i < |entries|
      invariant i <= |entries| && lines == ExperienceBlock(entries[..i])
    {
      assert entries[..i + 1][..i] == entries[..i];
      var entry := ExperienceLines(entries[i]);
      lines := lines + ["\n" + entry[0]] + entry[1..];
      i := i + 1;
    }
    assert entries[..i] == entries;
  }

  method RenderProjects(projects: seq<Project>) returns (lines: seq<string>)
    ensures lines == ProjectBlock(projects)
  {
    lines := [];
    var i := 0;
    while i < |projects|
      invariant i <= |projects| && lines == ProjectBlock(projects[..i])
    {
      assert projects[..i + 1][..i] == projects[..i];
      lines := lines + ProjectLines(projects[i]);
      i := i + 1;
    }
    assert projects[..i] == projects;
  }

  /** The lines of the blocks no replacement may target. */
  function ReadOnlyLinesSpec(cv: CvData): seq<string> {
    BareExperience(cv.experience) + ProjectBlock(cv.projects)
  }

  function BareExperience(entries: seq<Experience>): seq<string> {
    if entries == [] then []
    else BareExperience(entries[..|entries| - 1]) + ExperienceLines(entries[|entries| - 1])
  }

  /** `read_only_lines` of `utils/cv_replacements.py`. */
  method ReadOnlyLines(cv: CvData) returns (lines: seq<string>)
    ensures lines == ReadOnlyLinesSpec(cv)
  {
    lines := [];
    var i := 0;
    while i < |cv.experience|
      invariant i <= |cv.experience| && lines == BareExperience(cv.experience[..i])
    {
      assert cv.experience[..i + 1][..i] == cv.experience[..i];
      lines := lines + ExperienceLines(cv.experience[i]);
      i := i + 1;
    }
    assert cv.experience[..i] == cv.experience;
    var projects := RenderProjects(cv.projects);
    lines := lines + projects;
  }

  /** Read-only are exactly the lines of every experience entry and of every project. */
  lemma {:induction false} ReadOnlyExactly(cv: CvData, line: string)
    ensures line in ReadOnlyLinesSpec(cv) <==>
              || (exists e :: e in cv.experience && line in ExperienceLines(e))
              || (exists p :: p in cv.projects && line in ProjectLines(p))
  {
    ExperienceIsReadOnly(cv.experience, line);
    ProjectsAreReadOnly(cv.projects, line);
  }

  lemma {:induction false} ExperienceIsReadOnly(entries: seq<Experience>, line: string)
    ensures line in BareExperience(entries) <==> exists e :: e in entries && line in ExperienceLines(e)
  {
    if entries != [] {
      var rest, last := entries[..|entries| - 1], entries[|entries| - 1];
      ExperienceIsReadOnly(rest, line);
      assert entries == rest + [last];
    }
  }

  lemma {:induction false} ProjectsAreReadOnly(projects: seq<Project>, line: string)
    ensures line in ProjectBlock(projects) <==> exists p :: p in projects && line in ProjectLines(p)
  {
    if projects != [] {
      var rest, last := projects[..|projects| - 1], projects[|projects| - 1];
      ProjectsAreReadOnly(rest, line);
      assert projects == rest + [last];
    }
  }

  /** The read-only lines are all part of the rendered text: every piece of such a line is a line
      of the text the prompt and the sync check see. */
  lemma {:induction false} ReadOnlyLinesAreRendered(cv: CvData, line: string)
    requires line in ReadOnlyLinesSpec(cv) && '\n' !in line
    ensures line in Split(CvDataToTextSpec(cv), '\n')
  {
    SplitWithoutSeparator(line, '\n');
    var lines := CvLines(cv);
    if line in ProjectBlock(cv.projects) {
      assert cv.projects != [];
      assert line in lines;
      var k :| 0 <= k < |lines| && lines[k] == line;
      PieceOfAPart(lines, k, line, '\n');
    } else {
      var shown := ExperienceLineIsShown(cv.experience, line);
      assert shown in lines;
      var k :| 0 <= k < |lines| && lines[k] == shown;
      PieceOfAPart(lines, k, line, '\n');
    }
  }

  /** An experience line appears in the rendered block as itself, or behind the role's newline. */
  lemma {:induction false} ExperienceLineIsShown(entries: seq<Experience>, line: string) returns (shown: string)
    requires line in BareExperience(entries) && '\n' !in line
    ensures shown in ExperienceBlock(entries) && line in Split(shown, '\n')
  {
    var lines := ExperienceLines(entries[|entries| - 1]);
    if line in BareExperience(entries[..|entries| - 1]) {
      shown := ExperienceLineIsShown(entries[..|entries| - 1], line);
    } else if line == lines[0] {
      shown := "\n" + line;
      assert shown == [] + ['\n'] + line;
      SplitAtSeparator([], line, '\n');
      SplitWithoutSeparator(line, '\n');
    } else {
      shown := line;
      assert lines == [lines[0]] + lines[1..];
      SplitWithoutSeparator(line, '\n');
    }
  }

  // ---------- nothing is left out ----------

  /** The text is a field of the CV that the prompt has to show. */
  predicate IsField(cv: CvData, value: string) {
    || value == cv.title || value == cv.summary
    || (exists k :: 0 <= k < |cv.skills| && (value == cv.skills[k].0 || value == cv.skills[k].1))
    || (exists k :: 0 <= k < |cv.experience| && IsExperienceField(cv.experience[k], value))
    || (exists k :: 0 <= k < |cv.projects| && IsProjectField(cv.projects[k], value))
  }

  predicate IsExperienceField(e: Experience, value: string) {
    value in [e.role, e.companyInfo, e.context, e.dates] + Bulleted(e.highlights)
  }

  predicate IsProjectField(p: Project, value: string) {
    value in [p.heading, p.year, p.description, p.stack] + Bulleted(p.highlights) + p.links
  }

  lemma {:induction false} SkillIsRendered(skills: seq<(string, string)>, k: nat)
    requires k < |skills|
    ensures skills[k].0 in SkillLines(skills) && skills[k].1 in SkillLines(skills)
  {
    if k < |skills| - 1 {
      SkillIsRendered(skills[..|skills| - 1], k);
    }
  }

  lemma {:induction false} ExperienceIsRendered(entries: seq<Experience>, k: nat, value: string)
    requires k < |entries| && value != "" && IsExperienceField(entries[k], value)
    ensures value in ExperienceBlock(entries) || (value == entries[k].role && "\n" + value in ExperienceBlock(entries))
  {
    var rest, last := entries[..|entries| - 1], entries[|entries| - 1];
    if k < |entries| - 1 {
      ExperienceIsRendered(rest, k, value);
    } else {
      var middle := Present([last.companyInfo, last.context, last.dates]);
      PresentKeeps([last.companyInfo, last.context, last.dates], value);
      assert ExperienceLines(last)[1..] == middle + Bulleted(last.highlights);
      if value != last.role {
        assert value in middle + Bulleted(last.highlights);
      }
    }
  }

  lemma {:induction false} PresentKeeps(values: seq<string>, value: string)
    ensures value in Present(values) <==> value in values && value != ""
  {
    if values != [] {
      PresentKeeps(values[..|values| - 1], value);
      assert values == values[..|values| - 1] + [values[|values| - 1]];
    }
  }

  lemma {:induction false} ProjectIsRendered(projects: seq<Project>, k: nat, value: string)
    requires k < |projects| && value != "" && IsProjectField(projects[k], value)
    ensures value in ProjectBlock(projects)
  {
    if k < |projects| - 1 {
      ProjectIsRendered(projects[..|projects| - 1], k, value);
    } else {
      var p := projects[k];
      PresentKeeps([p.year], value);
      PresentKeeps([p.description], value);
    }
  }

  /** Every field of the CV stands in the rendered text, highlights behind their bullets. */
  lemma {:induction false} EveryFieldIsRendered(cv: CvData, value: string)
    requires value != "" && IsField(cv, value)
    ensures Contains(CvDataToTextSpec(cv), value)
  {
    var lines := CvLines(cv);
    if value == cv.title || value == cv.summary {
      assert value == lines[0] || value == lines[2];
      ShownLine(lines, value, value);
    } else if k :| 0 <= k < |cv.skills| && (value == cv.skills[k].0 || value == cv.skills[k].1) {
      SkillIsRendered(cv.skills, k);
      ShownLine(lines, value, value);
    } else if k :| 0 <= k < |cv.experience| && IsExperienceField(cv.experience[k], value) {
      ExperienceIsRendered(cv.experience, k, value);
      ShownLine(lines, if value in ExperienceBlock(cv.experience) then value else "\n" + value, value);
    } else {
      var k :| 0 <= k < |cv.projects| && IsProjectField(cv.projects[k], value);
      ProjectIsRendered(cv.projects, k, value);
      ShownLine(lines, value, value);
    }
  }

  lemma {:induction false} ShownLine(lines: seq<string>, line: string, value: string)
    requires line in lines && (line == value || line == "\n" + value)
    ensures Contains(Join(lines, '\n'), value)
  {
    var k :| 0 <= k < |lines| && lines[k] == line;
    JoinContainsPart(lines, k, '\n');
    var i := |line| - |value|;
    assert OccursAt(line, value, i);
    ContainsTransitive(Join(lines, '\n'), line, value);
  }

  // ---------- the whole layout, once ----------

  /** A CV with every kind of line. */
  function SampleCv(): CvData {
    CvData("Engineer", "Builds things.", [("Languages", "Go"), ("Data", "SQL")],
           [Experience("Lead", "Acme", "Payments", "2020", ["Cut costs"]), Experience("Dev", "", "", "2018", [])],
           [Project("Tool", "2021", "A tool.", ["Fast"], "Go", ["https://t.example"]),
            Project("Toy", "", "", [], "", [])])
  }

  /** The sections, their labels and the order of the lines. */
  lemma {:induction false} SampleIsRendered()
    ensures CvLines(SampleCv()) ==
      ["Engineer", "\nSUMMARY:", "Builds things.", "\nRELEVANT SKILLS:", "Languages", "Go", "Data", "SQL",
       "\nPROFESSIONAL EXPERIENCE:", "\nLead", "Acme", "Payments", "2020", "• Cut costs", "\nDev", "2018",
       "\nPET PROJECTS:", "Tool", "2021", "A tool.", "Key Highlights:", "• Fast", "Tech Stack:", "Go",
       "https://t.example", "Toy"]
  {
    var cv := SampleCv();
    SampleSkills();
    SampleExperience();
    SampleProjects();
  }

  /** Without projects their section goes too. */
  lemma {:induction false} SampleWithoutProjects()
    ensures CvLines(SampleCv().(projects := [])) ==
      ["Engineer", "\nSUMMARY:", "Builds things.", "\nRELEVANT SKILLS:", "Languages", "Go", "Data", "SQL",
       "\nPROFESSIONAL EXPERIENCE:", "\nLead", "Acme", "Payments", "2020", "• Cut costs", "\nDev", "2018"]
  {
    SampleSkills();
    SampleExperience();
  }

  lemma {:induction false} SampleSkills()
    ensures SkillLines(SampleCv().skills) == ["Languages", "Go", "Data", "SQL"]
  {
    var s := SampleCv().skills;
    assert s[..1] == [("Languages", "Go")] && s[..1][..0] == [];
    assert SkillLines([]) == [] && SkillLines(s[..1]) == ["Languages", "Go"];
  }

  lemma {:induction false} SampleExperience()
    ensures ExperienceBlock(SampleCv().experience) ==
            ["\nLead", "Acme", "Payments", "2020", "• Cut costs", "\nDev", "2018"]
  {
    var e := SampleCv().experience;
    PresentThree("Acme", "Payments", "2020");
    PresentThree("", "", "2018");
    BulletedOne("Cut costs");
    assert "• " + "Cut costs" == "• Cut costs";
    assert ExperienceLines(e[0]) == ["Lead", "Acme", "Payments", "2020", "• Cut costs"];
    assert ExperienceLines(e[1]) == ["Dev", "2018"];
    assert "\n" + "Lead" == "\nLead" && "\n" + "Dev" == "\nDev";
    assert ExperienceLines(e[0])[1..] == ["Acme", "Payments", "2020", "• Cut costs"];
    assert ExperienceLines(e[1])[1..] == ["2018"];
    assert e[..1] == [e[0]] && e[..1][..0] == [] && ExperienceBlock([]) == [];
    assert ExperienceBlock(e[..1]) == ["\nLead", "Acme", "Payments", "2020", "• Cut costs"];
  }

  lemma {:induction false} BulletedOne(highlight: string)
    ensures Bulleted([highlight]) == ["• " + highlight]
  {
    assert Bulleted([highlight])[0] == "• " + highlight;
  }

  lemma {:induction false} PresentThree(a: string, b: string, c: string)
    ensures Present([a, b, c]) == PresentOne(a) + PresentOne(b) + PresentOne(c)
  {
    assert [a, b, c][..2] == [a, b] && [a, b][..1] == [a] && [a][..0] == [];
    assert Present([a]) == PresentOne(a) && Present([a, b]) == PresentOne(a) + PresentOne(b);
  }

  function PresentOne(value: string): seq<string> {
    if value == "" then [] else [value]
  }

  lemma {:induction false} SampleProjects()
    ensures ProjectBlock(SampleCv().projects) ==
            ["Tool", "2021", "A tool.", "Key Highlights:", "• Fast", "Tech Stack:", "Go", "https://t.example", "Toy"]
  {
    var p := SampleCv().projects;
    assert [""][..0] == [] && ["2021"][..0] == [] && ["A tool."][..0] == [] && Present([]) == [];
    assert Present([""]) == [] && Present(["2021"]) == ["2021"] && Present(["A tool."]) == ["A tool."];
    BulletedOne("Fast");
    assert "• " + "Fast" == "• Fast";
    assert ProjectLines(p[0]) ==
           ["Tool", "2021", "A tool.", "Key Highlights:", "• Fast", "Tech Stack:", "Go", "https://t.example"];
    assert ProjectLines(p[1]) == ["Toy"];
    assert p[..1] == [p[0]] && p[..1][..0] == [] && ProjectBlock([]) == [];
    assert ProjectBlock(p[..1]) == ProjectLines(p[0]);
  }
}
