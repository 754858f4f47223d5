/** The request side of the assistant (services/gemini.ts): the transcript
    rewritten as the SDK's content history, the system instruction built
    from the portfolio records, and the single-chunk stream handed back
    when the request cannot be set up. */
module Gemini {
  import opened Options
  import opened JsText
  import opened Messages
  import opened Profile

  // ---------------------------------------------------------------------
  // History
  // ---------------------------------------------------------------------

  datatype Part = Part(text: string)

  /** One element of the SDK's `Content[]` history. */
  datatype Content = Content(role: string, parts: seq<Part>)

  /** The role spelling the SDK reads back. */
  function RoleOf(name: string): Option<Role> {
    if name == "user" then Some(User)
    else if name == "model" then Some(Assistant)
    else None
  }

  /** The role renaming of `buildHistory`: the SDK's name for the assistant
      is `model`. */
  function RoleName(r: Role): (name: string)
    ensures name == "user" || name == "model"
    ensures RoleOf(name) == Some(r)
  {
    match r
    case User => "user"
    case Assistant => "model"
  }

  function ToContent(t: Turn): Content {
    Content(RoleName(t.role), [Part(t.content)])
  }

  /** `buildHistory`: one content per message, in order, each carrying the
      message's text as its only part. */
  function BuildHistory(ms: seq<Turn>): (r: seq<Content>)
    ensures |r| == |ms|
    ensures forall i :: 0 <= i < |ms| ==>
      r[i].role == RoleName(ms[i].role) && r[i].parts == [Part(ms[i].content)]
  {
    if |ms| == 0 then [] else [ToContent(ms[0])] + BuildHistory(ms[1..])
  }

  /** Reads one content back as a message; `None` for a role the widget
      never sends or a content that is not a single text part. */
  function ReadTurn(c: Content): Option<Turn> {
    match RoleOf(c.role)
    case None => None
    case Some(r) => if |c.parts| == 1 then Some(Turn(r, c.parts[0].text)) else None
  }

  /** The inverse of `BuildHistory`. */
  function ReadHistory(cs: seq<Content>): Option<seq<Turn>> {
    if |cs| == 0 then Some([])
    else match (ReadTurn(cs[0]), ReadHistory(cs[1..]))
      case (Some(t), Some(ts)) => Some([t] + ts)
      case _ => None
  }

  /** No message is lost, reordered or changed by the renaming. */
  lemma {:induction false} HistoryRoundTrip(ms: seq<Turn>)
    ensures ReadHistory(BuildHistory(ms)) == Some(ms)
    decreases |ms|
  {
    if |ms| > 0 {
      var cs := BuildHistory(ms);
      assert cs[0] == ToContent(ms[0]);
      assert cs[1..] == BuildHistory(ms[1..]);
      HistoryRoundTrip(ms[1..]);
      assert [ms[0]] + ms[1..] == ms;
    }
  }

  /** Every history that reads back is the one built from what it reads
      back as: `BuildHistory` reaches exactly the well-formed histories. */
  lemma {:induction false} ReadHistoryBuilds(cs: seq<Content>, ms: seq<Turn>)
    requires ReadHistory(cs) == Some(ms)
    ensures BuildHistory(ms) == cs
    decreases |cs|
  {
    if |cs| > 0 {
      var t := ReadTurn(cs[0]).value;
      var ts := ReadHistory(cs[1..]).value;
      ReadTurnBuilds(cs[0], t);
      ReadHistoryBuilds(cs[1..], ts);
      BuildCons(t, ts);
      assert cs == [cs[0]] + cs[1..];
    }
  }

  /** A content that reads back as a message is that message's content. */
  lemma ReadTurnBuilds(c: Content, t: Turn)
    requires ReadTurn(c) == Some(t)
    ensures ToContent(t) == c
  {
    assert c.parts == [Part(t.content)];
  }

  lemma BuildCons(t: Turn, ts: seq<Turn>)
    ensures BuildHistory([t] + ts) == [ToContent(t)] + BuildHistory(ts)
  {
    assert ([t] + ts)[1..] == ts;
  }

  // ---------------------------------------------------------------------
  // System instruction
  // ---------------------------------------------------------------------

  // The two prose paragraphs are written as concatenations of short
  // literals: the verifier handles a few short literals far more cheaply
  // than one long one, and no proof looks inside them.

  /** The opening paragraph of the instruction. */
  const Intro: string :=
    "You are a helpful AI assistant for "
    + "Shahid Himmat Shaikh's portfolio. Your "
    + "goal is to answer questions about "
    + "Shahid's professional background, "
    + "skills, and projects based on the "
    + "following information. Keep your answers "
    + "professional, concise, and enthusiastic. "
    + "Use markdown for formatting (e.g., "
    + "**bold**, *italic*, lists)."

  /** The closing paragraph of the instruction. */
  const Outro: string :=
    "If a user asks something outside of "
    + "Shahid's professional scope, you can "
    + "briefly and positively mention his "
    + "hobbies if relevant (e.g., if asked what "
    + "he does for fun), but your primary goal "
    + "is to redirect them back to his "
    + "professional portfolio content. Use "
    + "Shahid's tone: obsessed with solving "
    + "hard problems and learning fast."

  function SkillLine(c: SkillCategory): string {
    "* " + c.name + ": " + Join(c.skills, ", ")
  }

  function ExperienceLine(e: Experience): string {
    "* " + e.role + " at " + e.company + " (" + e.period + "): " + Join(e.points, ". ")
  }

  function ProjectLine(p: Project): string {
    "* " + p.title + ": " + p.description
  }

  function EducationLine(e: Education): string {
    "* " + e.degree + " from " + e.school
  }

  function SkillLines(cs: seq<SkillCategory>): seq<string> {
    seq(|cs|, i requires 0 <= i < |cs| => SkillLine(cs[i]))
  }

  function ExperienceLines(es: seq<Experience>): seq<string> {
    seq(|es|, i requires 0 <= i < |es| => ExperienceLine(es[i]))
  }

  function ProjectLines(ps: seq<Project>): seq<string> {
    seq(|ps|, i requires 0 <= i < |ps| => ProjectLine(ps[i]))
  }

  function EducationLines(es: seq<Education>): seq<string> {
    seq(|es|, i requires 0 <= i < |es| => EducationLine(es[i]))
  }

  function HobbiesText(hobbies: seq<string>): string {
    Join(hobbies, ". ") + "."
  }

  /** Each string after the first with the space that follows a full stop
      in front of it. */
  function Spaced(xs: seq<string>): (r: seq<string>)
    ensures |r| == |xs|
  {
    if |xs| == 0 then [] else [xs[0]] + seq(|xs| - 1, i requires 0 <= i < |xs| - 1 => " " + xs[i + 1])
  }

  lemma {:induction false} JoinLeadingSpace(xs: seq<string>)
    requires |xs| > 0
    ensures Join(seq(|xs|, i requires 0 <= i < |xs| => " " + xs[i]), ".") == " " + Join(xs, ". ")
    decreases |xs|
  {
    var ps := seq(|xs|, i requires 0 <= i < |xs| => " " + xs[i]);
    if |xs| > 1 {
      var rest := xs[1..];
      assert ps[1..] == seq(|rest|, i requires 0 <= i < |rest| => " " + rest[i]);
      JoinLeadingSpace(rest);
      var j := Join(rest, ". ");
      assert Join(ps, ".") == " " + xs[0] + "." + (" " + j);
      assert Join(xs, ". ") == xs[0] + ". " + j;
    }
  }

  /** Joining with `". "` is joining the spaced strings with `"."`. */
  lemma JoinSpaced(xs: seq<string>)
    ensures Join(xs, ". ") == Join(Spaced(xs), ".")
  {
    if |xs| > 1 {
      var rest := xs[1..];
      var ps := seq(|rest|, i requires 0 <= i < |rest| => " " + rest[i]);
      assert Spaced(xs) == [xs[0]] + ps;
      assert (Spaced(xs))[1..] == ps;
      JoinLeadingSpace(rest);
      var j := Join(rest, ". ");
      assert Join(Spaced(xs), ".") == xs[0] + "." + (" " + j);
      assert Join(xs, ". ") == xs[0] + ". " + j;
    }
  }

  /** The hobbies row's text is the hobbies separated by `". "` and closed
      by one full stop: cut at its full stops it gives each hobby (all but
      the first after a space) and an empty tail. */
  lemma HobbiesPieces(hobbies: seq<string>)
    requires forall i :: 0 <= i < |hobbies| ==> '.' !in hobbies[i]
    ensures Split(HobbiesText(hobbies), '.') == (if |hobbies| == 0 then [""] else Spaced(hobbies)) + [""]
  {
    var pieces := if |hobbies| == 0 then [""] else Spaced(hobbies);
    JoinSpaced(hobbies);
    if |hobbies| == 0 {
      assert HobbiesText(hobbies) == Join(pieces + [""], ".");
    } else {
      JoinAppend(pieces, [""], ".");
      assert Join([""], ".") == "";
      assert HobbiesText(hobbies) == Join(pieces + [""], ".");
    }
    assert forall i :: 0 <= i < |pieces| ==> '.' !in pieces[i];
    SplitJoin(pieces + [""], '.');
  }

  /** The rows of the instruction template between its opening and its
      closing prose, as written, two-space indent included, given the lines
      of each section; a section's lines are joined into its row. */
  function Rows(info: PersonalInfo, skills: seq<string>, experience: seq<string>,
                projects: seq<string>, education: seq<string>): seq<string> {
    ["  ", "  Name: " + info.name, "  Role: " + info.title, "  Summary: " + info.summary]
    + ["  Skills: " + Join(skills, "\n")]
    + ["  Experience: " + Join(experience, "\n")]
    + ["  Projects: " + Join(projects, "\n")]
    + ["  Education: " + Join(education, "\n")]
    + ["  Hobbies: " + HobbiesText(info.hobbies), "  "]
  }

  function BodyRows(p: Portfolio): seq<string> {
    Rows(p.info, SkillLines(p.skills), ExperienceLines(p.experiences),
         ProjectLines(p.projects), EducationLines(p.educations))
  }

  /** Rows between an opening and a closing paragraph, one per line; the
      closing one carries the template's indent. */
  function Framed(opening: string, rows: seq<string>, closing: string): string {
    Join([opening] + rows + ["  " + closing], "\n")
  }

  /** `getSystemInstruction`. */
  function Instruction(p: Portfolio): string {
    Framed(Intro, BodyRows(p), Outro)
  }

  /** A heading whose first line shares its row. */
  function Headed(heading: string, lines: seq<string>): seq<string> {
    if |lines| == 0 then [heading] else [heading + lines[0]] + lines[1..]
  }

  /** No field the instruction prints holds a line break. */
  predicate Plain(p: Portfolio) {
    && '\n' !in p.info.name && '\n' !in p.info.title && '\n' !in p.info.summary
    && (forall i :: 0 <= i < |p.info.hobbies| ==> '\n' !in p.info.hobbies[i])
    && (forall i :: 0 <= i < |p.skills| ==> '\n' !in p.skills[i].name)
    && (forall i, j :: 0 <= i < |p.skills| && 0 <= j < |p.skills[i].skills| ==> '\n' !in p.skills[i].skills[j])
    && (forall i :: 0 <= i < |p.experiences| ==>
          '\n' !in p.experiences[i].role && '\n' !in p.experiences[i].company && '\n' !in p.experiences[i].period)
    && (forall i, j :: 0 <= i < |p.experiences| && 0 <= j < |p.experiences[i].points| ==> '\n' !in p.experiences[i].points[j])
    && (forall i :: 0 <= i < |p.projects| ==> '\n' !in p.projects[i].title && '\n' !in p.projects[i].description)
    && (forall i :: 0 <= i < |p.educations| ==> '\n' !in p.educations[i].degree && '\n' !in p.educations[i].school)
  }

  /** The lines of each row, in order. */
  function SplitEach(xs: seq<string>, c: char): seq<string> {
    if |xs| == 0 then [] else Split(xs[0], c) + SplitEach(xs[1..], c)
  }

  lemma {:induction false} SplitOfJoin(xs: seq<string>, c: char)
    requires |xs| > 0
    ensures Split(Join(xs, [c]), c) == SplitEach(xs, c)
    decreases |xs|
  {
    if |xs| == 1 {
      assert SplitEach(xs[1..], c) == [];
    } else {
      SplitConcat(xs[0], Join(xs[1..], [c]), c);
      SplitOfJoin(xs[1..], c);
    }
  }

  lemma {:induction false} SplitEachAppend(a: seq<string>, b: seq<string>, c: char)
    ensures SplitEach(a + b, c) == SplitEach(a, c) + SplitEach(b, c)
    decreases |a|
  {
    if |a| > 0 {
      assert (a + b)[1..] == a[1..] + b;
      SplitEachAppend(a[1..], b, c);
    } else {
      assert a + b == b;
    }
  }

  lemma {:induction false} SplitEachPlain(xs: seq<string>, c: char)
    requires forall i :: 0 <= i < |xs| ==> c !in xs[i]
    ensures SplitEach(xs, c) == xs
    decreases |xs|
  {
    if |xs| > 0 {
      SplitPlain(xs[0], c);
      SplitEachPlain(xs[1..], c);
      assert [xs[0]] + xs[1..] == xs;
    }
  }

  /** A section row splits into its heading line and its remaining lines. */
  lemma SectionRow(heading: string, lines: seq<string>)
    requires '\n' !in heading
    requires forall i :: 0 <= i < |lines| ==> '\n' !in lines[i]
    ensures SplitEach([heading + Join(lines, "\n")], '\n') == Headed(heading, lines)
  {
    if |lines| == 0 {
      assert heading + Join(lines, "\n") == heading;
      SplitPlain(heading, '\n');
    } else {
      SplitPrefixedJoin(heading, lines, '\n');
    }
  }

  lemma SectionsPlain(p: Portfolio)
    requires Plain(p)
    ensures forall i :: 0 <= i < |p.skills| ==> '\n' !in SkillLines(p.skills)[i]
    ensures forall i :: 0 <= i < |p.experiences| ==> '\n' !in ExperienceLines(p.experiences)[i]
    ensures forall i :: 0 <= i < |p.projects| ==> '\n' !in ProjectLines(p.projects)[i]
    ensures forall i :: 0 <= i < |p.educations| ==> '\n' !in EducationLines(p.educations)[i]
    ensures '\n' !in HobbiesText(p.info.hobbies)
  {
    forall i | 0 <= i < |p.skills| {
      JoinFree(p.skills[i].skills, ", ", '\n');
    }
    forall i | 0 <= i < |p.experiences| {
      JoinFree(p.experiences[i].points, ". ", '\n');
    }
    JoinFree(p.info.hobbies, ". ", '\n');
  }

  /** Rows of plain text around four section rows split into the plain
      rows and each section's heading and lines. */
  lemma {:induction false} SectionRows(head: seq<string>, tail: seq<string>,
                                       h1: string, l1: seq<string>, h2: string, l2: seq<string>,
                                       h3: string, l3: seq<string>, h4: string, l4: seq<string>)
    requires forall i :: 0 <= i < |head| ==> '\n' !in head[i]
    requires forall i :: 0 <= i < |tail| ==> '\n' !in tail[i]
    requires '\n' !in h1 && '\n' !in h2 && '\n' !in h3 && '\n' !in h4
    requires forall i :: 0 <= i < |l1| ==> '\n' !in l1[i]
    requires forall i :: 0 <= i < |l2| ==> '\n' !in l2[i]
    requires forall i :: 0 <= i < |l3| ==> '\n' !in l3[i]
    requires forall i :: 0 <= i < |l4| ==> '\n' !in l4[i]
    ensures SplitEach(head + [h1 + Join(l1, "\n")] + [h2 + Join(l2, "\n")] + [h3 + Join(l3, "\n")]
                      + [h4 + Join(l4, "\n")] + tail, '\n')
         == head + Headed(h1, l1) + Headed(h2, l2) + Headed(h3, l3) + Headed(h4, l4) + tail
  {
    var r1, r2, r3, r4 := [h1 + Join(l1, "\n")], [h2 + Join(l2, "\n")], [h3 + Join(l3, "\n")], [h4 + Join(l4, "\n")];
    SplitEachAppend(head + r1 + r2 + r3 + r4, tail, '\n');
    SplitEachAppend(head + r1 + r2 + r3, r4, '\n');
    SplitEachAppend(head + r1 + r2, r3, '\n');
    SplitEachAppend(head + r1, r2, '\n');
    SplitEachAppend(head, r1, '\n');
    SplitEachPlain(head, '\n');
    SplitEachPlain(tail, '\n');
    SectionRow(h1, l1);
    SectionRow(h2, l2);
    SectionRow(h3, l3);
    SectionRow(h4, l4);
  }

  lemma {:induction false} JoinAppend(a: seq<string>, b: seq<string>, sep: string)
    requires |a| > 0 && |b| > 0
    ensures Join(a + b, sep) == Join(a, sep) + sep + Join(b, sep)
    decreases |a|
  {
    if |a| > 1 {
      assert (a + b)[1..] == a[1..] + b;
      JoinAppend(a[1..], b, sep);
    } else {
      assert (a + b)[1..] == b;
    }
  }

  /** The opening and the closing paragraph each stand on their own line
      around the rows. */
  lemma FramedRows(opening: string, rows: seq<string>, closing: string)
    requires |rows| > 0
    ensures Framed(opening, rows, closing) == opening + "\n" + Join(rows, "\n") + "\n" + ("  " + closing)
  {
    var a := [opening] + rows;
    JoinAppend(a, ["  " + closing], "\n");
    assert a[1..] == rows;
  }

  lemma {:induction false} RowsLines(info: PersonalInfo, skills: seq<string>, experience: seq<string>,
                                     projects: seq<string>, education: seq<string>)
    requires '\n' !in info.name && '\n' !in info.title && '\n' !in info.summary
    requires '\n' !in HobbiesText(info.hobbies)
    requires forall i :: 0 <= i < |skills| ==> '\n' !in skills[i]
    requires forall i :: 0 <= i < |experience| ==> '\n' !in experience[i]
    requires forall i :: 0 <= i < |projects| ==> '\n' !in projects[i]
    requires forall i :: 0 <= i < |education| ==> '\n' !in education[i]
    ensures Split(Join(Rows(info, skills, experience, projects, education), "\n"), '\n') ==
      ["  ", "  Name: " + info.name, "  Role: " + info.title, "  Summary: " + info.summary]
      + Headed("  Skills: ", skills) + Headed("  Experience: ", experience)
      + Headed("  Projects: ", projects) + Headed("  Education: ", education)
      + ["  Hobbies: " + HobbiesText(info.hobbies), "  "]
  {
    SplitOfJoin(Rows(info, skills, experience, projects, education), '\n');
    SectionRows(["  ", "  Name: " + info.name, "  Role: " + info.title, "  Summary: " + info.summary],
                ["  Hobbies: " + HobbiesText(info.hobbies), "  "],
                "  Skills: ", skills, "  Experience: ", experience,
                "  Projects: ", projects, "  Education: ", education);
  }

  /** The body's lines: the fixed rows, then one line per skill category,
      experience, project and education record in record order (the first
      of each sharing the row of its heading), then the hobbies row. */
  lemma BodyLines(p: Portfolio)
    requires Plain(p)
    ensures Split(Join(BodyRows(p), "\n"), '\n') ==
      ["  ", "  Name: " + p.info.name, "  Role: " + p.info.title, "  Summary: " + p.info.summary]
      + Headed("  Skills: ", SkillLines(p.skills))
      + Headed("  Experience: ", ExperienceLines(p.experiences))
      + Headed("  Projects: ", ProjectLines(p.projects))
      + Headed("  Education: ", EducationLines(p.educations))
      + ["  Hobbies: " + HobbiesText(p.info.hobbies), "  "]
  {
    SectionsPlain(p);
    RowsLines(p.info, SkillLines(p.skills), ExperienceLines(p.experiences),
              ProjectLines(p.projects), EducationLines(p.educations));
  }

  // ---------------------------------------------------------------------
  // Streaming
  // ---------------------------------------------------------------------

  /** What iterating a response stream yields: the `text` of each chunk in
      arrival order (`None` for a chunk without text), and whether the
      iteration throws after the last of them. */
  datatype Stream = Stream(chunks: seq<Option<string>>, faults: bool)

  /** The request handed to the SDK; the sampling parameters are left out. */
  datatype Request = Request(model: string, contents: seq<Content>, systemInstruction: string)

  const ModelName: string := "gemini-3-flash-preview"

  /** The text of the one chunk of the stream returned when the request
      cannot be set up. */
  const Trouble: string := "I'm having trouble connecting right now. Please try again later or reach out to Shahid directly!"

  /** The request for a transcript, with the instruction built from the
      portfolio's records. */
  function MakeRequest(ms: seq<Turn>, p: Portfolio): (q: Request)
    ensures q.model == ModelName
    ensures ReadHistory(q.contents) == Some(ms)
    ensures q.systemInstruction == Instruction(p)
  {
    HistoryRoundTrip(ms);
    Request(ModelName, BuildHistory(ms), Instruction(p))
  }

  /** The stream that stands in for a request that could not be set up. */
  const Fallback: Stream := Stream([Some(Trouble)], false)

  /** `streamChatWithGemini`: `connect` stands for constructing the client
      and calling `generateContentStream`, with `None` when either throws.
      The setup never throws to the caller; failures while the returned
      stream is iterated are the stream's own. */
  function StreamChat(ms: seq<Turn>, p: Portfolio, connect: Request -> Option<Stream>): (s: Stream)
    ensures connect(MakeRequest(ms, p)).None? ==> s.chunks == [Some(Trouble)] && !s.faults
    ensures connect(MakeRequest(ms, p)).Some? ==> s == connect(MakeRequest(ms, p)).value
  {
    match connect(MakeRequest(ms, p))
    case Some(response) => response
    case None => Fallback
  }
}
