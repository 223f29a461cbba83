/** The text builders of scripts/export.js: the RTF escaping and wrapping
    (`textToRTF`), the plain-text report (`buildTextReport`) and the export file name. */
module Export {
  import opened Wrappers
  import opened JsText

  // ---- textToRTF ----

  const NBSP: char := '\U{A0}'
  const PAR := "\\par\n"

  /** `s.replace(/c/g, r)`: every occurrence of one character replaced by a string. */
  function ReplaceChar(s: string, c: char, r: string): string
  {
    if s == [] then [] else (if s[0] == c then r else [s[0]]) + ReplaceChar(s[1..], c, r)
  }

  /** `s.replace(/\r\n|\r|\n/g, '\\par\n')`: the alternatives are tried in order at each
      position, so a CR LF pair is one match. */
  function ReplaceLineBreaks(s: string): string
  {
    if s == [] then []
    else if |s| >= 2 && s[0] == '\r' && s[1] == '\n' then PAR + ReplaceLineBreaks(s[2..])
    else if s[0] == '\r' || s[0] == '\n' then PAR + ReplaceLineBreaks(s[1..])
    else [s[0]] + ReplaceLineBreaks(s[1..])
  }

  /** The first four passes of `esc`: backslashes, then braces, then no-break spaces. */
  function Prepass(s: string): string
  {
    ReplaceChar(ReplaceChar(ReplaceChar(ReplaceChar(s, '\\', "\\\\"), '{', "\\{"), '}', "\\}"), NBSP, " ")
  }

  /** `esc`: the five `replace` passes in the order written. */
  function Esc(s: string): string
  {
    ReplaceLineBreaks(Prepass(s))
  }

  /** What a single character becomes, read as one pass. */
  function EscChar(c: char): string
  {
    if c == '\\' then "\\\\"
    else if c == '{' then "\\{"
    else if c == '}' then "\\}"
    else if c == NBSP then " "
    else if c == '\r' || c == '\n' then PAR
    else [c]
  }

  /** A one-pass reference for `esc`: each backslash and brace gets exactly one
      backslash, a no-break space becomes a space, and CR LF, CR and LF each become one
      `\par` line break. */
  function EscRef(s: string): string
  {
    if s == [] then []
    else if |s| >= 2 && s[0] == '\r' && s[1] == '\n' then PAR + EscRef(s[2..])
    else EscChar(s[0]) + EscRef(s[1..])
  }

  lemma {:induction false} ReplaceCharConcat(a: string, b: string, c: char, r: string)
    ensures ReplaceChar(a + b, c, r) == ReplaceChar(a, c, r) + ReplaceChar(b, c, r)
  {
    if a == [] {
      assert a + b == b;
    } else {
      assert (a + b)[0] == a[0] && (a + b)[1..] == a[1..] + b;
      ReplaceCharConcat(a[1..], b, c, r);
    }
  }

  lemma {:induction false} ReplaceCharAbsent(s: string, c: char, r: string)
    requires forall i :: 0 <= i < |s| ==> s[i] != c
    ensures ReplaceChar(s, c, r) == s
  {
    if s != [] {
      ReplaceCharAbsent(s[1..], c, r);
    }
  }

  lemma ReplaceCharOne(x: char, c: char, r: string)
    ensures ReplaceChar([x], c, r) == if x == c then r else [x]
  {
    assert [x][1..] == [];
  }

  /** What the first four passes make of one character. */
  function PreChar(c: char): string
  {
    if c == '\\' then "\\\\"
    else if c == '{' then "\\{"
    else if c == '}' then "\\}"
    else if c == NBSP then " "
    else [c]
  }

  lemma PrepassChar(x: char)
    ensures Prepass([x]) == PreChar(x)
  {
    ReplaceCharOne(x, '\\', "\\\\");
    var a1 := if x == '\\' then "\\\\" else [x];
    if x == '{' { ReplaceCharOne(x, '{', "\\{"); } else { ReplaceCharAbsent(a1, '{', "\\{"); }
    var a2 := if x == '{' then "\\{" else a1;
    if x == '}' { ReplaceCharOne(x, '}', "\\}"); } else { ReplaceCharAbsent(a2, '}', "\\}"); }
    var a3 := if x == '}' then "\\}" else a2;
    if x == NBSP { ReplaceCharOne(x, NBSP, " "); } else { ReplaceCharAbsent(a3, NBSP, " "); }
  }

  lemma PrepassCons(x: char, t: string)
    ensures Prepass([x] + t) == PreChar(x) + Prepass(t)
  {
    var s1 := ReplaceChar([x] + t, '\\', "\\\\");
    ReplaceCharConcat([x], t, '\\', "\\\\");
    var a1, b1 := ReplaceChar([x], '\\', "\\\\"), ReplaceChar(t, '\\', "\\\\");
    ReplaceCharConcat(a1, b1, '{', "\\{");
    var a2, b2 := ReplaceChar(a1, '{', "\\{"), ReplaceChar(b1, '{', "\\{");
    ReplaceCharConcat(a2, b2, '}', "\\}");
    var a3, b3 := ReplaceChar(a2, '}', "\\}"), ReplaceChar(b2, '}', "\\}");
    ReplaceCharConcat(a3, b3, NBSP, " ");
    PrepassChar(x);
  }

  lemma {:induction false} LineBreaksPlainPrefix(a: string, t: string)
    requires forall i :: 0 <= i < |a| ==> a[i] != '\r' && a[i] != '\n'
    ensures ReplaceLineBreaks(a + t) == a + ReplaceLineBreaks(t)
  {
    if a == [] {
      assert a + t == t;
    } else {
      assert (a + t)[0] == a[0] && (a + t)[1..] == a[1..] + t;
      LineBreaksPlainPrefix(a[1..], t);
      assert a == [a[0]] + a[1..];
    }
  }

  /** The five passes do what the one-pass reference does: the backslashes the brace
      passes insert are not doubled again, and the `\par` backslash is not escaped. */
  lemma {:induction false} EscIsEscRef(s: string)
    ensures Esc(s) == EscRef(s)
    decreases |s|
  {
    if s != [] {
      var x, t := s[0], s[1..];
      assert s == [x] + t;
      PrepassCons(x, t);
      if |s| >= 2 && s[0] == '\r' && s[1] == '\n' {
        var u := s[2..];
        assert t == ['\n'] + u;
        PrepassCons('\n', u);
        assert Prepass(s) == ['\r', '\n'] + Prepass(u);
        EscIsEscRef(u);
      } else if x == '\r' || x == '\n' {
        EscIsEscRef(t);
        if t != [] {
          PrepassCons(t[0], t[1..]);
          assert t == [t[0]] + t[1..];
        }
        assert Prepass(s) == [x] + Prepass(t);
        assert !(x == '\r' && |Prepass(t)| > 0 && Prepass(t)[0] == '\n');
      } else {
        LineBreaksPlainPrefix(PreChar(x), Prepass(t));
        EscIsEscRef(t);
      }
    }
  }

  /** The escaped text never contains a carriage return. */
  lemma {:induction false} EscRefNoCarriageReturn(s: string)
    ensures forall i :: 0 <= i < |EscRef(s)| ==> EscRef(s)[i] != '\r'
    decreases |s|
  {
    if s != [] {
      if |s| >= 2 && s[0] == '\r' && s[1] == '\n' {
        EscRefNoCarriageReturn(s[2..]);
      } else {
        EscRefNoCarriageReturn(s[1..]);
      }
    }
  }

  predicate IsEscaped(c: char)
  {
    c == '\\' || c == '{' || c == '}' || c == NBSP || c == '\r' || c == '\n'
  }

  /** Text with none of the characters `esc` rewrites passes through unchanged. */
  lemma {:induction false} EscRefPlain(s: string)
    requires forall i :: 0 <= i < |s| ==> !IsEscaped(s[i])
    ensures EscRef(s) == s
  {
    if s != [] {
      EscRefPlain(s[1..]);
    }
  }

  /** Reads RTF text back: `\\`, `\{`, `\}` stand for the character, `\par` and a
      newline for a line break. */
  function Unescape(s: string): string
  {
    if s == [] then []
    else if |s| >= 2 && s[0] == '\\' && (s[1] == '\\' || s[1] == '{' || s[1] == '}') then [s[1]] + Unescape(s[2..])
    else if |s| >= 5 && s[..5] == PAR then "\n" + Unescape(s[5..])
    else [s[0]] + Unescape(s[1..])
  }

  /** The text as the RTF reader sees it: no-break spaces as spaces, every line break
      (CR LF, CR or LF) as one LF. */
  function Normalize(s: string): string
  {
    if s == [] then []
    else if |s| >= 2 && s[0] == '\r' && s[1] == '\n' then "\n" + Normalize(s[2..])
    else [if s[0] == NBSP then ' ' else if s[0] == '\r' then '\n' else s[0]] + Normalize(s[1..])
  }

  lemma UnescapePiece(x: char, rest: string)
    ensures Unescape(EscChar(x) + rest) ==
      [if x == NBSP then ' ' else if x == '\r' then '\n' else x] + Unescape(rest)
  {
    var s := EscChar(x) + rest;
    if x == '\\' || x == '{' || x == '}' {
      assert s[0] == '\\' && s[1] == x && s[2..] == rest;
    } else if x == '\r' || x == '\n' {
      assert s[..5] == PAR && s[5..] == rest;
      assert s[1] == 'p';
    } else {
      assert s[0] != '\\' && s[1..] == rest;
      if |s| >= 5 {
        assert s[..5][0] != PAR[0];
      }
    }
  }

  /** Escaping loses nothing but what RTF cannot tell apart: reading the escaped text
      back gives the text with line breaks and no-break spaces normalised. */
  lemma {:induction false} UnescapeEscRef(s: string)
    ensures Unescape(EscRef(s)) == Normalize(s)
    decreases |s|
  {
    if s != [] {
      if |s| >= 2 && s[0] == '\r' && s[1] == '\n' {
        UnescapePiece('\n', EscRef(s[2..]));
        UnescapeEscRef(s[2..]);
      } else {
        UnescapePiece(s[0], EscRef(s[1..]));
        UnescapeEscRef(s[1..]);
      }
    }
  }

  const RTF_HEADER := "{\\rtf1\\ansi\\deff0{\\fonttbl{\\f0 Arial;}}\n" + "\\f0\\fs24\\cf1\n"
  const RTF_COLOR_TABLE := "{\\colortbl;\\red0\\green0\\blue0;}\n"

  /** `textToRTF(text)`. */
  function TextToRtf(text: string): string
  {
    RTF_HEADER + RTF_COLOR_TABLE + Esc(text) + "\n}"
  }

  /** The document is the Arial header, the black colour table, the escaped text and the
      closing brace; the body holds no carriage return and reads back as the normalised text. */
  lemma TextToRtfParts(text: string)
    ensures var doc := TextToRtf(text);
            var n := |RTF_HEADER + RTF_COLOR_TABLE|;
            && n + 2 <= |doc|
            && doc[..n] == RTF_HEADER + RTF_COLOR_TABLE
            && doc[|doc| - 2..] == "\n}"
            && (forall i :: n <= i < |doc| - 2 ==> doc[i] != '\r')
            && Unescape(doc[n..|doc| - 2]) == Normalize(text)
  {
    var doc := TextToRtf(text);
    var n := |RTF_HEADER + RTF_COLOR_TABLE|;
    EscIsEscRef(text);
    EscRefNoCarriageReturn(text);
    UnescapeEscRef(text);
    assert doc[n..|doc| - 2] == Esc(text);
    forall i | n <= i < |doc| - 2 ensures doc[i] != '\r' {
      assert doc[i] == Esc(text)[i - n];
    }
  }

  // ---- buildTextReport ----

  datatype Student = Student(vorname: Text, name: Text, geburtstag: Text, adresse: Text, bemerkung: Text)
  datatype Plan = Plan(id: string, titel: Text, status: Text, fach: Text, startdatum: Text, endedatum: Text)
  datatype Goal = Goal(id: string, titel: Text, beschreibung: Text, verantwortlich: Text)
  datatype Subgoal = Subgoal(titel: Text, status: Text)
  datatype Indicator = Indicator(text: Text)
  datatype Observation = Observation(createdAt: Option<int>, sichtbarkeit: Text, autor: Text, text: Text)

  /** The lookup objects `gatherAll` builds, keyed by plan id and goal id. */
  datatype Related = Related(
    goalsByPlan: map<string, seq<Goal>>,
    subgoalsByGoal: map<string, seq<Subgoal>>,
    indicatorsByGoal: map<string, seq<Indicator>>,
    observationsByGoal: map<string, seq<Observation>>)

  /** `m[k] || []`: a missing entry reads as an empty list (a present one, even empty,
      is an array and so truthy). */
  function Get<T>(m: map<string, seq<T>>, k: string): seq<T>
  {
    if k in m then m[k] else []
  }

  /** `[a, b].filter(Boolean)`. */
  function TruthyValues(ts: seq<Text>): seq<string>
  {
    if ts == [] then []
    else (if Truthy(ts[0]) then [ts[0].value] else []) + TruthyValues(ts[1..])
  }

  /** The `zeitraum` of a plan: its set dates joined by " bis ". */
  function Zeitraum(p: Plan): string
  {
    Join(TruthyValues([p.startdatum, p.endedatum]), " bis ")
  }

  const REPORT_TITLE := "Förderplanung\n"
  const OBSERVATIONS_HEADER := "    Beobachtungen:"

  /** `${geburtstag ?? '-'}`: only null (not "") prints as "-". */
  function NameLine(s: Student): string
  {
    Show(s.vorname) + " " + Show(s.name) + " (geb. " + (if s.geburtstag.None? then "-" else s.geburtstag.value) + ")"
  }

  function RemarkLine(s: Student): string
    requires s.bemerkung.Some?
  {
    "Bemerkung: " + s.bemerkung.value
  }

  function PlanLine(p: Plan): string
  {
    "Plan: " + (if Truthy(p.fach) then p.fach.value + " — " else "") + Show(p.titel) + " (" + Show(p.status) + ")"
  }

  function GoalLine(z: Goal): string
  {
    "  Ziel: " + Show(z.titel) + " " + (if Truthy(z.beschreibung) then "— " + z.beschreibung.value else "")
  }

  function ResponsibleLine(z: Goal): string
    requires z.verantwortlich.Some?
  {
    "  Verantwortlich: " + z.verantwortlich.value
  }

  function StudentLines(s: Student): seq<string>
  {
    [REPORT_TITLE, NameLine(s)]
    + (if Truthy(s.adresse) then [s.adresse.value] else [])
    + (if Truthy(s.bemerkung) then [RemarkLine(s)] else [])
    + [""]
  }

  function PlanHeadLines(p: Plan): seq<string>
  {
    [PlanLine(p)]
    + (if Zeitraum(p) != "" then ["Zeitraum: " + Zeitraum(p)] else [])
    + [""]
  }

  function GoalHeadLines(z: Goal): seq<string>
  {
    [GoalLine(z)]
    + (if Truthy(z.verantwortlich) then [ResponsibleLine(z)] else [])
  }

  function SubgoalLine(t: Subgoal): string
  {
    "    Teilziel: " + Show(t.titel) + " (" + Show(t.status) + ")"
  }

  function IndicatorLine(k: Indicator): string
  {
    "    Indikator: " + Show(k.text)
  }

  /** `fmtDate` stands for `fmtDateISO`, which depends on the time zone. */
  function ObservationLine(b: Observation, fmtDate: Option<int> -> string): string
  {
    "      – " + fmtDate(b.createdAt) + (if Truthy(b.autor) then ", " + b.autor.value else "")
    + " [" + Show(b.sichtbarkeit) + "]: " + Show(b.text)
  }

  // The list builders below add the last element's lines to the lines of the others,
  // in the order the loops push them.

  function SubgoalLines(ts: seq<Subgoal>): seq<string>
  {
    if ts == [] then [] else SubgoalLines(ts[..|ts| - 1]) + [SubgoalLine(ts[|ts| - 1])]
  }

  function IndicatorLines(ks: seq<Indicator>): seq<string>
  {
    if ks == [] then [] else IndicatorLines(ks[..|ks| - 1]) + [IndicatorLine(ks[|ks| - 1])]
  }

  function ObservationLines(bs: seq<Observation>, fmtDate: Option<int> -> string): seq<string>
  {
    if bs == [] then [] else ObservationLines(bs[..|bs| - 1], fmtDate) + [ObservationLine(bs[|bs| - 1], fmtDate)]
  }

  function GoalLines(z: Goal, rel: Related, fmtDate: Option<int> -> string): seq<string>
  {
    var beos := Get(rel.observationsByGoal, z.id);
    GoalHeadLines(z)
    + SubgoalLines(Get(rel.subgoalsByGoal, z.id))
    + IndicatorLines(Get(rel.indicatorsByGoal, z.id))
    + (if |beos| > 0 then [OBSERVATIONS_HEADER] + ObservationLines(beos, fmtDate) else [])
    + [""]
  }

  function GoalsLines(zs: seq<Goal>, rel: Related, fmtDate: Option<int> -> string): seq<string>
  {
    if zs == [] then [] else GoalsLines(zs[..|zs| - 1], rel, fmtDate) + GoalLines(zs[|zs| - 1], rel, fmtDate)
  }

  function PlanLines(p: Plan, rel: Related, fmtDate: Option<int> -> string): seq<string>
  {
    PlanHeadLines(p) + GoalsLines(Get(rel.goalsByPlan, p.id), rel, fmtDate) + [""]
  }

  function PlansLines(ps: seq<Plan>, rel: Related, fmtDate: Option<int> -> string): seq<string>
  {
    if ps == [] then [] else PlansLines(ps[..|ps| - 1], rel, fmtDate) + PlanLines(ps[|ps| - 1], rel, fmtDate)
  }

  /** The lines of the report: the student block, then one block per plan in input
      order, each with one block per goal in input order. */
  function ReportLines(s: Student, plans: seq<Plan>, rel: Related, fmtDate: Option<int> -> string): seq<string>
  {
    StudentLines(s) + PlansLines(plans, rel, fmtDate)
  }

  /** `for (const t of tz) L.push(...)`. */
  method PushSubgoals(L: seq<string>, ts: seq<Subgoal>) returns (L': seq<string>)
    ensures L' == L + SubgoalLines(ts)
  {
    L' := L;
    var i := 0;
    while i < |ts|
      invariant 0 <= i <= |ts|
      invariant L' == L + SubgoalLines(ts[..i])
    {
      assert ts[..i + 1][..i] == ts[..i];
      assert SubgoalLines(ts[..i + 1]) == SubgoalLines(ts[..i]) + [SubgoalLine(ts[i])];
      L' := L' + [SubgoalLine(ts[i])];
      i := i + 1;
    }
    assert ts[..i] == ts;
  }

  /** `for (const k of ind) L.push(...)`. */
  method PushIndicators(L: seq<string>, ks: seq<Indicator>) returns (L': seq<string>)
    ensures L' == L + IndicatorLines(ks)
  {
    L' := L;
    var i := 0;
    while i < |ks|
      invariant 0 <= i <= |ks|
      invariant L' == L + IndicatorLines(ks[..i])
    {
      assert ks[..i + 1][..i] == ks[..i];
      assert IndicatorLines(ks[..i + 1]) == IndicatorLines(ks[..i]) + [IndicatorLine(ks[i])];
      L' := L' + [IndicatorLine(ks[i])];
      i := i + 1;
    }
    assert ks[..i] == ks;
  }

  /** `for (const b of beos) L.push(...)`. */
  method PushObservations(L: seq<string>, bs: seq<Observation>, fmtDate: Option<int> -> string) returns (L': seq<string>)
    ensures L' == L + ObservationLines(bs, fmtDate)
  {
    L' := L;
    var i := 0;
    while i < |bs|
      invariant 0 <= i <= |bs|
      invariant L' == L + ObservationLines(bs[..i], fmtDate)
    {
      assert bs[..i + 1][..i] == bs[..i];
      assert ObservationLines(bs[..i + 1], fmtDate) == ObservationLines(bs[..i], fmtDate) + [ObservationLine(bs[i], fmtDate)];
      L' := L' + [ObservationLine(bs[i], fmtDate)];
      i := i + 1;
    }
    assert bs[..i] == bs;
  }

  lemma AppendAssoc(a: seq<string>, b: seq<string>, c: seq<string>)
    ensures a + (b + c) == (a + b) + c
  {
  }

  /** The body of the inner `for (const z of goals)`. */
  method PushGoal(L: seq<string>, z: Goal, rel: Related, fmtDate: Option<int> -> string) returns (L': seq<string>)
    ensures L' == L + GoalLines(z, rel, fmtDate)
  {
    L' := L + [GoalLine(z)];
    if Truthy(z.verantwortlich) {
      L' := L' + [ResponsibleLine(z)];
    }
    ghost var H := GoalHeadLines(z);
    assert L' == L + H;
    var S := Get(rel.subgoalsByGoal, z.id);
    L' := PushSubgoals(L', S);
    var I := Get(rel.indicatorsByGoal, z.id);
    L' := PushIndicators(L', I);
    var beos := Get(rel.observationsByGoal, z.id);
    ghost var mid := L';
    if |beos| > 0 {
      L' := L' + [OBSERVATIONS_HEADER];
      L' := PushObservations(L', beos, fmtDate);
      AppendAssoc(mid, [OBSERVATIONS_HEADER], ObservationLines(beos, fmtDate));
    }
    ghost var O := if |beos| > 0 then [OBSERVATIONS_HEADER] + ObservationLines(beos, fmtDate) else [];
    assert L' == mid + O;
    L' := L' + [""];
    ghost var SL, IL := SubgoalLines(S), IndicatorLines(I);
    assert GoalLines(z, rel, fmtDate) == H + SL + IL + O + [""];
    AppendAssoc(L, H, SL);
    AppendAssoc(L, H + SL, IL);
    AppendAssoc(L, H + SL + IL, O);
    AppendAssoc(L, H + SL + IL + O, [""]);
  }

  /** The inner `for (const z of goals)` loop. */
  method PushGoals(L: seq<string>, zs: seq<Goal>, rel: Related, fmtDate: Option<int> -> string) returns (L': seq<string>)
    ensures L' == L + GoalsLines(zs, rel, fmtDate)
  {
    L' := L;
    var j := 0;
    while j < |zs|
      invariant 0 <= j <= |zs|
      invariant L' == L + GoalsLines(zs[..j], rel, fmtDate)
    {
      assert zs[..j + 1][..j] == zs[..j];
      assert GoalsLines(zs[..j + 1], rel, fmtDate) == GoalsLines(zs[..j], rel, fmtDate) + GoalLines(zs[j], rel, fmtDate);
      L' := PushGoal(L', zs[j], rel, fmtDate);
      j := j + 1;
    }
    assert zs[..j] == zs;
  }

  /** `buildTextReport(student, plans, goalsByPlan, teilzieleByZiel, indikatorenByZiel, beobByZiel)`. */
  method BuildTextReport(s: Student, plans: seq<Plan>, rel: Related, fmtDate: Option<int> -> string) returns (text: string)
    ensures text == Join(ReportLines(s, plans, rel, fmtDate), "\n")
  {
    var L: seq<string> := [];
    L := L + [REPORT_TITLE];
    L := L + [NameLine(s)];
    if Truthy(s.adresse) {
      L := L + [s.adresse.value];
    }
    if Truthy(s.bemerkung) {
      L := L + [RemarkLine(s)];
    }
    L := L + [""];
    assert L == StudentLines(s);

    var i := 0;
    while i < |plans|
      invariant 0 <= i <= |plans|
      invariant L == StudentLines(s) + PlansLines(plans[..i], rel, fmtDate)
    {
      ghost var before := L;
      L := PushPlan(L, plans[i], rel, fmtDate);
      assert plans[..i + 1][..i] == plans[..i];
      assert PlansLines(plans[..i + 1], rel, fmtDate) == PlansLines(plans[..i], rel, fmtDate) + PlanLines(plans[i], rel, fmtDate);
      AppendAssoc(StudentLines(s), PlansLines(plans[..i], rel, fmtDate), PlanLines(plans[i], rel, fmtDate));
      i := i + 1;
    }
    assert plans[..i] == plans;
    text := Join(L, "\n");
  }

  /** One iteration of the plan loop: the plan's heading, its goals and an empty line. */
  method PushPlan(L0: seq<string>, p: Plan, rel: Related, fmtDate: Option<int> -> string) returns (L: seq<string>)
    ensures L == L0 + PlanLines(p, rel, fmtDate)
  {
    L := L0 + [PlanLine(p)];
    var zeitraum := Join(TruthyValues([p.startdatum, p.endedatum]), " bis ");
    if zeitraum != "" {
      L := L + ["Zeitraum: " + zeitraum];
    }
    L := L + [""];
    ghost var H := PlanHeadLines(p);
    assert L == L0 + H;
    var goals := Get(rel.goalsByPlan, p.id);
    L := PushGoals(L, goals, rel, fmtDate);
    L := L + [""];
    ghost var G := GoalsLines(goals, rel, fmtDate);
    AppendAssoc(L0, H, G);
    AppendAssoc(L0, H + G, [""]);
  }

  // ---- what the report promises ----

  /** The report opens with the title line and the name line; the birthday prints as "-"
      only when it is null; the address and remark lines appear exactly when the fields
      are truthy, followed by an empty line. */
  lemma ReportOpening(s: Student, plans: seq<Plan>, rel: Related, fmtDate: Option<int> -> string)
    ensures var r := ReportLines(s, plans, rel, fmtDate);
            && |r| >= 3
            && r[0] == REPORT_TITLE
            && r[1] == Show(s.vorname) + " " + Show(s.name) + " (geb. " + (if s.geburtstag.None? then "-" else s.geburtstag.value) + ")"
            && |StudentLines(s)| == 3 + (if Truthy(s.adresse) then 1 else 0) + (if Truthy(s.bemerkung) then 1 else 0)
            && (Truthy(s.adresse) ==> r[2] == s.adresse.value)
            && (!Truthy(s.adresse) && Truthy(s.bemerkung) ==> r[2] == "Bemerkung: " + s.bemerkung.value)
            && (Truthy(s.adresse) && Truthy(s.bemerkung) ==> r[3] == "Bemerkung: " + s.bemerkung.value)
            && r[|StudentLines(s)| - 1] == ""
  {
    assert ReportLines(s, plans, rel, fmtDate)[..|StudentLines(s)|] == StudentLines(s);
  }

  /** The period line: present exactly when a start or an end date is set, and the two
      dates joined by " bis " when both are. */
  lemma ZeitraumLine(p: Plan)
    ensures Zeitraum(p) != "" <==> Truthy(p.startdatum) || Truthy(p.endedatum)
    ensures Truthy(p.startdatum) && Truthy(p.endedatum) ==> Zeitraum(p) == p.startdatum.value + " bis " + p.endedatum.value
    ensures Truthy(p.startdatum) && !Truthy(p.endedatum) ==> Zeitraum(p) == p.startdatum.value
    ensures !Truthy(p.startdatum) && Truthy(p.endedatum) ==> Zeitraum(p) == p.endedatum.value
    ensures |PlanHeadLines(p)| == if Truthy(p.startdatum) || Truthy(p.endedatum) then 3 else 2
  {
    var ts := [p.startdatum, p.endedatum];
    assert ts[1..] == [p.endedatum] && ts[1..][1..] == [];
    var second := if Truthy(p.endedatum) then [p.endedatum.value] else [];
    assert TruthyValues(ts[1..]) == second + TruthyValues([]);
    assert TruthyValues(ts[1..]) == second;
    if Truthy(p.startdatum) && Truthy(p.endedatum) {
      var parts := [p.startdatum.value, p.endedatum.value];
      assert TruthyValues(ts) == parts;
      assert parts[1..] == [p.endedatum.value];
      assert Join(parts[1..], " bis ") == p.endedatum.value;
      assert Join(parts, " bis ") == parts[0] + " bis " + Join(parts[1..], " bis ");
    }
  }

  /** Plans are reported in input order: the report of a concatenation is the
      concatenation of the reports. */
  lemma {:induction false} PlansLinesConcat(a: seq<Plan>, b: seq<Plan>, rel: Related, fmtDate: Option<int> -> string)
    ensures PlansLines(a + b, rel, fmtDate) == PlansLines(a, rel, fmtDate) + PlansLines(b, rel, fmtDate)
    decreases |b|
  {
    if b == [] {
      assert a + b == a;
    } else {
      var b' := b[..|b| - 1];
      var last := PlanLines(b[|b| - 1], rel, fmtDate);
      assert (a + b)[..|a + b| - 1] == a + b';
      assert (a + b)[|a + b| - 1] == b[|b| - 1];
      PlansLinesConcat(a, b', rel, fmtDate);
      calc {
        PlansLines(a + b, rel, fmtDate);
        PlansLines(a + b', rel, fmtDate) + last;
        PlansLines(a, rel, fmtDate) + PlansLines(b', rel, fmtDate) + last;
        { AppendAssoc(PlansLines(a, rel, fmtDate), PlansLines(b', rel, fmtDate), last); }
        PlansLines(a, rel, fmtDate) + (PlansLines(b', rel, fmtDate) + last);
        PlansLines(a, rel, fmtDate) + PlansLines(b, rel, fmtDate);
      }
    }
  }

  /** A plan or goal with no entry in the lookup objects reports as if its lists were empty. */
  lemma MissingEntries(p: Plan, z: Goal, rel: Related, fmtDate: Option<int> -> string)
    ensures p.id !in rel.goalsByPlan ==> PlanLines(p, rel, fmtDate) == PlanHeadLines(p) + [""]
    ensures z.id !in rel.subgoalsByGoal && z.id !in rel.indicatorsByGoal && z.id !in rel.observationsByGoal ==>
              GoalLines(z, rel, fmtDate) == GoalHeadLines(z) + [""]
  {
  }

  lemma {:induction false} SubgoalLinesShape(ts: seq<Subgoal>)
    ensures forall l :: l in SubgoalLines(ts) ==> |l| > 4 && l[4] == 'T'
  {
    if ts != [] {
      SubgoalLinesShape(ts[..|ts| - 1]);
    }
  }

  lemma {:induction false} IndicatorLinesShape(ks: seq<Indicator>)
    ensures forall l :: l in IndicatorLines(ks) ==> |l| > 4 && l[4] == 'I'
  {
    if ks != [] {
      IndicatorLinesShape(ks[..|ks| - 1]);
    }
  }

  /** The observations header is printed exactly when the goal has observations. */
  lemma ObservationsHeaderIff(z: Goal, rel: Related, fmtDate: Option<int> -> string)
    ensures OBSERVATIONS_HEADER in GoalLines(z, rel, fmtDate) <==> |Get(rel.observationsByGoal, z.id)| > 0
  {
    var beos := Get(rel.observationsByGoal, z.id);
    if |beos| == 0 {
      var S, I := SubgoalLines(Get(rel.subgoalsByGoal, z.id)), IndicatorLines(Get(rel.indicatorsByGoal, z.id));
      SubgoalLinesShape(Get(rel.subgoalsByGoal, z.id));
      IndicatorLinesShape(Get(rel.indicatorsByGoal, z.id));
      assert GoalLines(z, rel, fmtDate) == GoalHeadLines(z) + S + I + [""];
      assert OBSERVATIONS_HEADER[2] == ' ' && OBSERVATIONS_HEADER[4] == 'B';
      assert GoalLine(z)[2] == 'Z';
      if Truthy(z.verantwortlich) {
        assert ResponsibleLine(z)[2] == 'V';
      }
      assert OBSERVATIONS_HEADER !in GoalHeadLines(z);
    } else {
      assert GoalLines(z, rel, fmtDate) == GoalHeadLines(z) + SubgoalLines(Get(rel.subgoalsByGoal, z.id))
        + IndicatorLines(Get(rel.indicatorsByGoal, z.id)) + ([OBSERVATIONS_HEADER] + ObservationLines(beos, fmtDate)) + [""];
    }
  }

  // ---- the export file name ----

  /** `s.replace(/\s+/g, '_')`: each maximal run of whitespace becomes one underscore. */
  function CollapseSpaces(s: string): string
    decreases |s|
  {
    if s == [] then []
    else if IsSpace(s[0]) then "_" + CollapseSpaces(TrimStart(s[1..]))
    else [s[0]] + CollapseSpaces(s[1..])
  }

  /** The base name of the export file. `stamp` stands for `fmtDateISO(new Date())`. */
  function ExportBase(name: Text, vorname: Text, stamp: string): string
  {
    CollapseSpaces("foerderplanung_" + Show(name) + "_" + Show(vorname) + "_" + stamp)
  }

  lemma {:induction false} CollapseSpacesNoSpace(s: string)
    ensures forall i :: 0 <= i < |CollapseSpaces(s)| ==> !IsSpace(CollapseSpaces(s)[i])
    decreases |s|
  {
    if s != [] {
      if IsSpace(s[0]) {
        CollapseSpacesNoSpace(TrimStart(s[1..]));
      } else {
        CollapseSpacesNoSpace(s[1..]);
      }
    }
  }

  lemma {:induction false} CollapseSpacesPlain(s: string)
    requires forall i :: 0 <= i < |s| ==> !IsSpace(s[i])
    ensures CollapseSpaces(s) == s
    decreases |s|
  {
    if s != [] {
      CollapseSpacesPlain(s[1..]);
    }
  }

  /** A non-empty run of whitespace, up to the next other character, becomes exactly one
      underscore; other characters are kept; and normalising twice changes nothing. */
  lemma CollapseSpacesRun(w: string, t: string)
    requires w != [] && forall i :: 0 <= i < |w| ==> IsSpace(w[i])
    requires t == [] || !IsSpace(t[0])
    ensures CollapseSpaces(w + t) == "_" + CollapseSpaces(t)
    ensures CollapseSpaces(CollapseSpaces(w + t)) == CollapseSpaces(w + t)
  {
    TrimStartRun(w[1..], t);
    assert (w + t)[1..] == w[1..] + t;
    CollapseSpacesNoSpace(w + t);
    CollapseSpacesPlain(CollapseSpaces(w + t));
  }

  /** The file base name holds no whitespace and is already normalised. */
  lemma ExportBaseNoSpace(name: Text, vorname: Text, stamp: string)
    ensures forall i :: 0 <= i < |ExportBase(name, vorname, stamp)| ==> !IsSpace(ExportBase(name, vorname, stamp)[i])
    ensures CollapseSpaces(ExportBase(name, vorname, stamp)) == ExportBase(name, vorname, stamp)
  {
    var s := "foerderplanung_" + Show(name) + "_" + Show(vorname) + "_" + stamp;
    CollapseSpacesNoSpace(s);
    CollapseSpacesPlain(CollapseSpaces(s));
  }
}
