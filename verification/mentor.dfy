/** The open-source mentor of backend/agents/open_source_mentor.py: its own
    catalog loader, the context block built from the first programs, and the
    choice between the model's text and the static contribution guide. The
    hosted model is a function from prompt to outcome; the wording of the
    prompt template around the context block and the message is not modelled. */
module Mentor {
  import opened Text
  import opened Models
  import opened Catalog

  /** The module's own `load_programs`: the parsed file, or nothing at all. */
  function LoadLocalPrograms(file: ReadOutcome): (r: seq<Program>)
    ensures file.Parsed? ==> r == file.records
    ensures !file.Parsed? ==> r == []
  {
    match file
    case Parsed(records) => records
    case _ => []
  }

  /** The mentor's loader agrees with the service's loader exactly when the
      primary file is usable, or when the service falls back to a cache that
      parses to an empty list; otherwise the service has a cache or the
      built-in records to offer and the mentor has none. */
  lemma LocalLoaderAgreement(primary: ReadOutcome, cache: ReadOutcome)
    ensures LoadLocalPrograms(primary) == LoadPrograms(primary, cache)
            <==> IsUsablePrimary(primary) || cache == Parsed([])
  {
  }

  /** At most this many programs go into the context block. */
  const ContextLimit: nat := 8

  function Min(a: nat, b: nat): nat {
    if a <= b then a else b
  }

  /** The fields of a program that the context line shows. */
  predicate HasNoNewline(p: Program) {
    && '\n' !in p.name
    && '\n' !in p.description
    && '\n' !in p.difficulty
    && '\n' !in p.programType
    && '\n' !in p.deadline
  }

  /** One context line:
      `- {name}: {description} (Difficulty: {difficulty}, Type: {type}, Deadline: {deadline})`. */
  function ContextLine(p: Program): (r: string)
    ensures |r| > 2 && r[..2] == "- " && r[|r| - 1] == ')'
    ensures '\n' !in r <==> HasNoNewline(p)
  {
    "- " + p.name + ": " + p.description
    + " (Difficulty: " + p.difficulty
    + ", Type: " + p.programType
    + ", Deadline: " + p.deadline + ")"
  }

  /** Each shown field sits at a fixed place in its context line, between the
      fixed labels of the format; the labels add 39 characters in all. */
  lemma ContextLineFields(p: Program)
    ensures var r := ContextLine(p);
            var a := 2 + |p.name|;
            var b := a + 2 + |p.description|;
            var c := b + 14 + |p.difficulty|;
            var d := c + 8 + |p.programType|;
            && |r| == |p.name| + |p.description| + |p.difficulty| + |p.programType| + |p.deadline| + 39
            && r[2..a] == p.name
            && r[a..a + 2] == ": " && r[a + 2..b] == p.description
            && r[b..b + 14] == " (Difficulty: " && r[b + 14..c] == p.difficulty
            && r[c..c + 8] == ", Type: " && r[c + 8..d] == p.programType
            && r[d..d + 12] == ", Deadline: " && r[d + 12..|r| - 1] == p.deadline
  {
    LineName(p);
    LineDescription(p);
    LineDifficulty(p);
    LineType(p);
    LineDeadline(p);
  }

  /** Where each field lands in its line, one field at a time. */
  lemma LineName(p: Program)
    ensures var r := ContextLine(p);
            2 + |p.name| <= |r| && r[2..2 + |p.name|] == p.name
  {
  }

  lemma LineDescription(p: Program)
    ensures var r := ContextLine(p);
            var a := 2 + |p.name|;
            var b := a + 2 + |p.description|;
            && b <= |r|
            && r[a..a + 2] == ": " && r[a + 2..b] == p.description
  {
  }

  lemma LineDifficulty(p: Program)
    ensures var r := ContextLine(p);
            var b := 4 + |p.name| + |p.description|;
            var c := b + 14 + |p.difficulty|;
            && c <= |r|
            && r[b..b + 14] == " (Difficulty: " && r[b + 14..c] == p.difficulty
  {
  }

  lemma LineType(p: Program)
    ensures var r := ContextLine(p);
            var c := 18 + |p.name| + |p.description| + |p.difficulty|;
            var d := c + 8 + |p.programType|;
            && d <= |r|
            && r[c..c + 8] == ", Type: " && r[c + 8..d] == p.programType
  {
  }

  lemma LineDeadline(p: Program)
    ensures var r := ContextLine(p);
            var d := 26 + |p.name| + |p.description| + |p.difficulty| + |p.programType|;
            && |r| == |p.name| + |p.description| + |p.difficulty| + |p.programType| + |p.deadline| + 39
            && r[d..d + 12] == ", Deadline: " && r[d + 12..|r| - 1] == p.deadline
  {
  }

  /** The context lines of the first `ContextLimit` programs, in order. */
  function ContextLines(programs: seq<Program>): (r: seq<string>)
    ensures |r| == Min(ContextLimit, |programs|)
    ensures forall i :: 0 <= i < |r| ==> r[i] == ContextLine(programs[i])
  {
    var n := Min(ContextLimit, |programs|);
    seq(n, i requires 0 <= i < n => ContextLine(programs[i]))
  }

  /** The context block: the lines of the first eight programs joined by
      newlines. Split back at its newlines it gives one line per program, in
      catalog order, provided no shown field itself holds a newline. */
  function ProgramsContext(programs: seq<Program>): (r: string)
    ensures |programs| == 0 ==> r == ""
    ensures |programs| > 0
            && (forall i :: 0 <= i < Min(ContextLimit, |programs|) ==> HasNoNewline(programs[i]))
            ==> var lines := Split('\n', r);
                && |lines| == Min(ContextLimit, |programs|)
                && forall i :: 0 <= i < |lines| ==> lines[i] == ContextLine(programs[i])
  {
    SplitContextLines(programs);
    Join('\n', ContextLines(programs))
  }

  lemma SplitContextLines(programs: seq<Program>)
    ensures |programs| > 0
            && (forall i :: 0 <= i < Min(ContextLimit, |programs|) ==> HasNoNewline(programs[i]))
            ==> Split('\n', Join('\n', ContextLines(programs))) == ContextLines(programs)
  {
    var lines := ContextLines(programs);
    if |programs| > 0
       && (forall i :: 0 <= i < Min(ContextLimit, |programs|) ==> HasNoNewline(programs[i])) {
      SplitJoin('\n', lines);
    }
  }

  /** Only the first eight programs matter to the context block. */
  lemma ContextIgnoresTail(programs: seq<Program>, more: seq<Program>)
    requires |programs| >= ContextLimit
    ensures ProgramsContext(programs + more) == ProgramsContext(programs)
  {
    assert ContextLines(programs + more) == ContextLines(programs);
  }

  /** What the model is asked: the template filled with the context block and
      the user's message. */
  datatype Prompt = Prompt(context: string, message: string)

  /** What the hosted model call yields: its text, or any exception. */
  datatype ModelOutcome = Generated(text: string) | Failed

  /** The prompt embeds the message verbatim and a context block that only
      the first `ContextLimit` programs determine. */
  function BuildPrompt(message: string, programs: seq<Program>): (r: Prompt)
    ensures r.message == message
    ensures r.context == ProgramsContext(programs[..Min(ContextLimit, |programs|)])
    ensures |programs| == 0 ==> r.context == ""
  {
    assert ContextLines(programs[..Min(ContextLimit, |programs|)]) == ContextLines(programs);
    Prompt(ProgramsContext(programs), message)
  }

  const Indent := "        "

  /** The guide's first line, written as two literals because the verifier
      cannot index into a single literal this long. */
  const GuideOpening := "Here's how to contribute" + " to open source projects:"

  const GuideClosing := "        What specific part would you like help with?"

  /** The guide between its heading and its closing question. */
  const GuideBody :=
    "\n"
    + "\n"
    + "        **Git Workflow:**\n"
    + "        1. **Fork** the repository on GitHub\n"
    + "        2. **Clone** your fork: `git clone your-fork-url`\n"
    + "        3. **Create branch**: `git checkout -b feature-name`\n"
    + "        4. **Make changes** and test them\n"
    + "        5. **Commit**: `git commit -m \"Add feature description\"`\n"
    + "        6. **Push**: `git push origin feature-name`\n"
    + "        7. **Pull Request**: Create PR on original repository\n"
    + "        8. **Merge**: Wait for maintainers to review and merge\n"
    + "\n"
    + "        **Tips:**\n"
    + "        - Start with small issues labeled \"good first issue\"\n"
    + "        - Read contribution guidelines in README.md\n"
    + "        - Test your changes thoroughly\n"
    + "        - Write clear commit messages\n"
    + "\n"

  /** The static contribution guide, as `strip()` leaves the literal. */
  const FallbackGuide := GuideOpening + GuideBody + GuideClosing

  /** The triple-quoted literal as written: the guide between a line break plus
      indentation on each side. */
  const FallbackLiteral := "\n" + Indent + FallbackGuide + "\n" + Indent

  /** The guide opens with the fixed heading and neither starts nor ends with
      whitespace. */
  lemma GuideTrimmed()
    ensures IsTrimmed(FallbackGuide)
    ensures |FallbackGuide| > |GuideOpening| && FallbackGuide[..|GuideOpening|] == GuideOpening
  {
    var tail := GuideBody + GuideClosing;
    assert FallbackGuide == GuideOpening + tail;
    assert FallbackGuide[0] == GuideOpening[0] == 'H';
    assert FallbackGuide[|FallbackGuide| - 1] == GuideClosing[|GuideClosing| - 1] == '?';
  }

  /** Stripping the literal gives the guide, which opens with the fixed
      heading and neither starts nor ends with whitespace. */
  lemma FallbackLiteralStrips()
    ensures Strip(FallbackLiteral) == FallbackGuide
    ensures IsTrimmed(FallbackGuide)
    ensures |FallbackGuide| > |GuideOpening| && FallbackGuide[..|GuideOpening|] == GuideOpening
  {
    GuideTrimmed();
    var pad := "\n" + Indent;
    assert IsBlank(pad);
    assert FallbackLiteral == pad + FallbackGuide + pad;
    StripPadded(pad, FallbackGuide, pad);
  }

  /** `open_source_mentor_agent`: the model's text stripped on success; the
      stripped static guide on any failure. Either way the reply neither starts
      nor ends with whitespace. */
  function MentorReply(message: string, programs: seq<Program>, generate: Prompt -> ModelOutcome): (r: string)
    ensures IsTrimmed(r)
    ensures generate(BuildPrompt(message, programs)).Generated? ==>
              r == Strip(generate(BuildPrompt(message, programs)).text)
    ensures generate(BuildPrompt(message, programs)).Failed? ==> r == FallbackGuide
  {
    match generate(BuildPrompt(message, programs))
    case Generated(text) => Strip(text)
    case Failed =>
      FallbackLiteralStrips();
      Strip(FallbackLiteral)
  }

  /** A failed model call gives the same reply for every message and program
      list, and that reply starts with the guide's heading. */
  lemma FallbackIgnoresInput(
    m1: string, ps1: seq<Program>, g1: Prompt -> ModelOutcome,
    m2: string, ps2: seq<Program>, g2: Prompt -> ModelOutcome)
    ensures g1(BuildPrompt(m1, ps1)).Failed? && g2(BuildPrompt(m2, ps2)).Failed? ==>
              var reply := MentorReply(m1, ps1, g1);
              && reply == MentorReply(m2, ps2, g2)
              && |reply| > |GuideOpening| && reply[..|GuideOpening|] == GuideOpening
  {
    GuideTrimmed();
  }

  /** Stripping the reply again changes nothing. */
  lemma ReplyIsStripped(message: string, programs: seq<Program>, generate: Prompt -> ModelOutcome)
    ensures Strip(MentorReply(message, programs, generate)) == MentorReply(message, programs, generate)
  {
    StripTrimmed(MentorReply(message, programs, generate));
  }

  /** With no programs the prompt is still built, with an empty context block,
      and the model is still asked. */
  lemma EmptyCatalogStillAsks(message: string, generate: Prompt -> ModelOutcome)
    ensures BuildPrompt(message, []) == Prompt("", message)
    ensures generate(Prompt("", message)).Generated? ==>
              MentorReply(message, [], generate) == Strip(generate(Prompt("", message)).text)
  {
  }
}
