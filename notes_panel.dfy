/** src/components/features/notes/NotesPanel.tsx: the project's cards, the
    note previews and where the note selection goes. */
module NotesPanel {
  import opened Wrappers
  import opened Seqs
  import opened Text
  import opened Domain
  import opened Kanban

  /** `projectColumnIds`: the identifiers of the current project's columns, in store order. */
  function ProjectColumnIds(d: AppData): (r: seq<string>)
    ensures forall id :: id in r <==> InCurrentColumn(d, id)
  {
    var own := Filter(d.columns, ColumnInCurrent(d.currentProjectId));
    var r := Map(own, ColumnIdOf);
    forall id ensures id in r <==> InCurrentColumn(d, id) {
      MapMembers(own, ColumnIdOf, id);
      forall c ensures c in own <==> c in d.columns && d.currentProjectId == Some(c.projectId) {
        FilterMembers(d.columns, ColumnInCurrent(d.currentProjectId), c);
      }
    }
    r
  }

  function CardInColumns(ids: seq<string>): Card -> bool {
    (c: Card) => c.columnId in ids
  }

  /** `projectCards`: the cards whose column belongs to the current project,
      archived or not, each as often as stored, in store order. */
  function ProjectCards(d: AppData): (r: seq<Card>)
    ensures forall k :: k in r <==> k in d.cards && InCurrentColumn(d, k.columnId)
    ensures |r| <= |d.cards|
    ensures FilteredFrom(r, d.cards, CardInColumns(ProjectColumnIds(d)))
  {
    var ids := ProjectColumnIds(d);
    var r := Filter(d.cards, CardInColumns(ids));
    FilterFilteredFrom(d.cards, CardInColumns(ids));
    assert forall k :: k in r <==> k in d.cards && InCurrentColumn(d, k.columnId) by {
      forall k ensures k in r <==> k in d.cards && InCurrentColumn(d, k.columnId) {
        FilterMembers(d.cards, CardInColumns(ids), k);
      }
    }
    r
  }

  /** The archived cards of the board are among the project's cards. */
  lemma ArchivedCardsAreProjectCards(d: AppData, k: Card)
    requires k in ArchivedCards(d)
    ensures k in ProjectCards(d)
  {
  }

  /** `/<[^>]*>/g` replaced by a space: a `<` up to the next `>` becomes one
      space; a `<` with no `>` after it is kept, and so is the rest. */
  function StripTags(s: string): (r: string)
    ensures forall i, j :: 0 <= i < j < |r| && r[i] == '<' ==> r[j] != '>'
    ensures |r| <= |s|
    decreases |s|
  {
    if s == [] then []
    else if s[0] == '<' then
      var close := FirstIndex(s[1..], IsClose());
      if close < |s| - 1 then
        var rest := StripTags(s[close + 2..]);
        [' '] + rest
      else
        assert forall j :: 1 <= j < |s| ==> s[j] != '>' by {
          forall j | 1 <= j < |s| ensures s[j] != '>' {
            assert s[1..][j - 1] == s[j];
          }
        }
        s
    else [s[0]] + StripTags(s[1..])
  }

  function IsClose(): char -> bool { (c: char) => c == '>' }

  /** Text without `<` passes through `StripTags` unchanged ahead of what follows it. */
  lemma {:induction false} StripTagsPrefix(a: string, s: string)
    requires forall i :: 0 <= i < |a| ==> a[i] != '<'
    ensures StripTags(a + s) == a + StripTags(s)
    decreases |a|
  {
    if a == [] {
      assert a + s == s;
    } else {
      assert (a + s)[0] == a[0] && (a + s)[1..] == a[1..] + s;
      StripTagsPrefix(a[1..], s);
    }
  }

  /** A tag at the start becomes one space. */
  lemma StripTagsTagHead(t: string, b: string)
    requires forall i :: 0 <= i < |t| ==> t[i] != '>'
    ensures StripTags("<" + t + ">" + b) == " " + StripTags(b)
  {
    var s := "<" + t + ">" + b;
    assert s[1..] == t + ">" + b;
    assert s[1..][|t|] == '>';
    assert FirstIndex(s[1..], IsClose()) == |t|;
    assert s[|t| + 2..] == b;
  }

  /** A `<` whose next `>` closes the tag `t`: the whole tag becomes one space,
      and the text up to it is kept. */
  lemma StripTagsTag(a: string, t: string, b: string)
    requires forall i :: 0 <= i < |a| ==> a[i] != '<'
    requires forall i :: 0 <= i < |t| ==> t[i] != '>'
    ensures StripTags(a + "<" + t + ">" + b) == a + " " + StripTags(b)
  {
    var s := "<" + t + ">" + b;
    assert a + "<" + t + ">" + b == a + s;
    StripTagsPrefix(a, s);
    StripTagsTagHead(t, b);
  }

  /** A `<` with no `>` after it is kept, together with all that follows it. */
  lemma StripTagsUnclosed(a: string, t: string)
    requires forall i :: 0 <= i < |a| ==> a[i] != '<'
    requires forall i :: 0 <= i < |t| ==> t[i] != '>'
    ensures StripTags(a + "<" + t) == a + "<" + t
  {
    var s := "<" + t;
    assert a + "<" + t == a + s;
    StripTagsPrefix(a, s);
    assert s[1..] == t;
  }

  /** Every white-space character is a plain space and no two spaces touch. */
  predicate SingleSpaced(s: string) {
    (forall i :: 0 <= i < |s| && IsSpace(s[i]) ==> s[i] == ' ')
    && (forall i :: 0 <= i < |s| - 1 ==> !(s[i] == ' ' && s[i + 1] == ' '))
  }

  /** `/\s+/g` replaced by a space: every run of white space becomes one space. */
  function CollapseSpaces(s: string): (r: string)
    ensures |r| <= |s|
    ensures s == [] <==> r == []
    decreases |s|
  {
    if s == [] then []
    else if IsSpace(s[0]) then [' '] + CollapseSpaces(TrimStart(s[1..]))
    else [s[0]] + CollapseSpaces(s[1..])
  }

  function NotSpace(): char -> bool { (c: char) => !IsSpace(c) }

  /** White space dropped from the front leaves the other characters as they were. */
  lemma TrimStartKeepsWords(u: string)
    ensures Filter(TrimStart(u), NotSpace()) == Filter(u, NotSpace())
  {
    FilterDropPrefix(u, |u| - |TrimStart(u)|, NotSpace());
  }

  /** White space dropped from the end leaves the other characters as they were. */
  lemma TrimEndKeepsWords(u: string)
    ensures Filter(TrimEnd(u), NotSpace()) == Filter(u, NotSpace())
  {
    FilterDropSuffix(u, |TrimEnd(u)|, NotSpace());
  }

  /** Trimming leaves the characters that are not white space as they were. */
  lemma TrimKeepsWords(u: string)
    ensures Filter(Trim(u), NotSpace()) == Filter(u, NotSpace())
  {
    TrimStartKeepsWords(u);
    TrimEndKeepsWords(TrimStart(u));
  }

  /** Collapsing keeps every character that is not white space, in order:
      only the runs of white space between them change. */
  lemma {:induction false} CollapseKeepsWords(s: string)
    ensures Filter(CollapseSpaces(s), NotSpace()) == Filter(s, NotSpace())
    decreases |s|
  {
    if s != [] {
      if IsSpace(s[0]) {
        var t := TrimStart(s[1..]);
        CollapseKeepsWords(t);
        TrimStartKeepsWords(s[1..]);
        assert CollapseSpaces(s) == [' '] + CollapseSpaces(t);
      } else {
        CollapseKeepsWords(s[1..]);
        assert CollapseSpaces(s) == [s[0]] + CollapseSpaces(s[1..]);
      }
    }
  }

  /** Text without white space passes through `CollapseSpaces` unchanged ahead of what follows it. */
  lemma {:induction false} CollapsePrefix(a: string, s: string)
    requires forall i :: 0 <= i < |a| ==> !IsSpace(a[i])
    ensures CollapseSpaces(a + s) == a + CollapseSpaces(s)
    decreases |a|
  {
    if a == [] {
      assert a + s == s;
    } else {
      assert (a + s)[0] == a[0] && (a + s)[1..] == a[1..] + s;
      CollapsePrefix(a[1..], s);
    }
  }

  /** A run of white space up to the next other character trims away. */
  lemma {:induction false} TrimStartRun(w: string, b: string)
    requires forall i :: 0 <= i < |w| ==> IsSpace(w[i])
    requires b == [] || !IsSpace(b[0])
    ensures TrimStart(w + b) == b
    decreases |w|
  {
    if w == [] {
      assert w + b == b;
    } else {
      assert (w + b)[1..] == w[1..] + b;
      TrimStartRun(w[1..], b);
    }
  }

  /** A leading run of white space becomes one space. */
  lemma CollapseLeadingRun(w: string, b: string)
    requires w != [] && forall i :: 0 <= i < |w| ==> IsSpace(w[i])
    requires b == [] || !IsSpace(b[0])
    ensures CollapseSpaces(w + b) == " " + CollapseSpaces(b)
  {
    TrimStartRunTail(w, b);
    CollapseSpaceHead(w + b, b);
  }

  /** After the first character of a white-space run, trimming removes the rest of it. */
  lemma TrimStartRunTail(w: string, b: string)
    requires w != [] && forall i :: 0 <= i < |w| ==> IsSpace(w[i])
    requires b == [] || !IsSpace(b[0])
    ensures IsSpace((w + b)[0]) && TrimStart((w + b)[1..]) == b
  {
    assert (w + b)[0] == w[0] && (w + b)[1..] == w[1..] + b;
    TrimStartRun(w[1..], b);
  }

  /** A leading white-space character becomes a space, and the run after it is trimmed. */
  lemma CollapseSpaceHead(u: string, t: string)
    requires u != [] && IsSpace(u[0]) && TrimStart(u[1..]) == t
    ensures CollapseSpaces(u) == " " + CollapseSpaces(t)
  {
  }

  /** A whole run of white space, however long, becomes one space. */
  lemma CollapseRun(a: string, w: string, b: string)
    requires forall i :: 0 <= i < |a| ==> !IsSpace(a[i])
    requires w != [] && forall i :: 0 <= i < |w| ==> IsSpace(w[i])
    requires b == [] || !IsSpace(b[0])
    ensures CollapseSpaces(a + w + b) == a + " " + CollapseSpaces(b)
  {
    assert a + w + b == a + (w + b);
    CollapsePrefix(a, w + b);
    CollapseLeadingRun(w, b);
    SpaceBetween(CollapseSpaces(a + w + b), CollapseSpaces(w + b), a, CollapseSpaces(b));
  }

  /** `x` is `a`, a space, then `c`, when `x` is `a` then `y` and `y` a space then `c`. */
  lemma SpaceBetween(x: string, y: string, a: string, c: string)
    requires x == a + y && y == " " + c
    ensures x == a + " " + c
  {
  }

  /** Collapsing leaves a single-spaced text that starts with white space
      exactly when the input does. */
  lemma {:induction false} CollapseSpacesSingleSpaced(s: string)
    ensures SingleSpaced(CollapseSpaces(s))
    ensures s != [] ==> (IsSpace(CollapseSpaces(s)[0]) <==> IsSpace(s[0]))
    decreases |s|
  {
    if s != [] {
      var r := CollapseSpaces(s);
      var t := if IsSpace(s[0]) then TrimStart(s[1..]) else s[1..];
      CollapseSpacesSingleSpaced(t);
      var rest := CollapseSpaces(t);
      assert r == [if IsSpace(s[0]) then ' ' else s[0]] + rest;
      assert IsSpace(s[0]) ==> rest == [] || !IsSpace(rest[0]);
      assert forall i :: 1 <= i < |r| ==> r[i] == rest[i - 1];
    }
  }

  /** The cleaned text of a preview: tags become spaces, white space
      collapses and the ends are trimmed. Every character of the tag-stripped
      text that is not white space is kept, in order. */
  function CleanText(content: string): (r: string)
    ensures r == [] || (!IsSpace(r[0]) && !IsSpace(r[|r| - 1]))
    ensures SingleSpaced(r)
    ensures Filter(r, NotSpace()) == Filter(StripTags(content), NotSpace())
  {
    var c := CollapseSpaces(StripTags(content));
    CollapseSpacesSingleSpaced(StripTags(content));
    TrimSingleSpaced(c);
    CollapseKeepsWords(StripTags(content));
    TrimKeepsWords(c);
    Trim(c)
  }

  /** Trimming a single-spaced text leaves it single-spaced: it keeps a contiguous slice. */
  lemma TrimSingleSpaced(s: string)
    requires SingleSpaced(s)
    ensures SingleSpaced(Trim(s))
  {
    var t := TrimStart(s);
    var r := TrimEnd(t);
    var a := |s| - |t|;
    assert t == s[a..];
    assert r == t[..|r|];
    assert forall i :: 0 <= i < |r| ==> r[i] == s[a + i];
  }

  /** `getPreview(content)`: the first 60 characters of the cleaned text, and
      "..." exactly when it is longer. */
  function Preview(content: string): (r: string)
    ensures |r| <= 63
    ensures |CleanText(content)| <= 60 ==> r == CleanText(content)
    ensures |CleanText(content)| > 60 ==> r == CleanText(content)[..60] + "..."
  {
    var text := CleanText(content);
    Take(text, 60) + (if |text| > 60 then "..." else "")
  }

  /** A preview of text that is already clean is that text, cut at 60 characters. */
  lemma PreviewOfPlainText(content: string)
    requires forall i :: 0 <= i < |content| ==> !IsSpace(content[i]) && content[i] != '<'
    ensures Preview(content) == Take(content, 60) + (if |content| > 60 then "..." else "")
  {
    StripTagsPlain(content);
    CollapsePlain(content);
    TrimNoSpace(content);
  }

  lemma {:induction false} StripTagsPlain(s: string)
    requires forall i :: 0 <= i < |s| ==> s[i] != '<'
    ensures StripTags(s) == s
  {
    if s != [] {
      StripTagsPlain(s[1..]);
    }
  }

  lemma {:induction false} CollapsePlain(s: string)
    requires forall i :: 0 <= i < |s| ==> !IsSpace(s[i])
    ensures CollapseSpaces(s) == s
  {
    if s != [] {
      CollapsePlain(s[1..]);
    }
  }

  function NoteIsNot(id: string): Note -> bool { (n: Note) => n.id != id }

  /** `handleDeleteNote(id)`: deleting the selected note selects the first
      other listed note, or none; deleting another keeps the selection. */
  function SelectionAfterDelete(listed: seq<Note>, selected: Option<string>, id: string): (r: Option<string>)
    ensures selected != Some(id) ==> r == selected
    ensures selected == Some(id) ==> r != Some(id)
    ensures selected == Some(id) && r.Some? ==> exists n :: n in listed && n.id == r.value
    ensures selected == Some(id) && r.None? ==> forall n :: n in listed ==> n.id == id
    ensures selected == Some(id) && r.Some? ==>
      exists i :: 0 <= i < |listed| && listed[i].id == r.value && forall j :: 0 <= j < i ==> listed[j].id == id
  {
    if selected != Some(id) then selected
    else
      var remaining := Filter(listed, NoteIsNot(id));
      var i := FirstIndex(listed, NoteIsNot(id));
      FirstIsFilterHead(listed, NoteIsNot(id));
      if |remaining| > 0 then
        assert remaining[0] in remaining;
        FilterMembers(listed, NoteIsNot(id), remaining[0]);
        Some(remaining[0].id)
      else
        assert forall n :: n in listed ==> n.id == id by {
          forall n | n in listed ensures n.id == id {
            FilterMembers(listed, NoteIsNot(id), n);
          }
        }
        None
  }

  /** The head of a filter is the first element that satisfies its test. */
  lemma {:induction false} FirstIsFilterHead<T>(s: seq<T>, p: T -> bool)
    ensures Filter(s, p) != [] <==> FirstIndex(s, p) < |s|
    ensures Filter(s, p) != [] ==> Filter(s, p)[0] == s[FirstIndex(s, p)]
  {
    if s != [] {
      FirstIsFilterHead(s[1..], p);
    }
  }

  function NoteIdIs(id: string): Note -> bool { (n: Note) => n.id == id }

  /** The effect on a missing selection: a truthy selected identifier that no
      listed note carries moves to the first listed note, or to none. */
  function SelectionFallback(listed: seq<Note>, selected: Option<string>): (r: Option<string>)
    ensures !Truthy(selected) || (exists n :: n in listed && Some(n.id) == selected) ==> r == selected
    ensures Truthy(selected) && (forall n :: n in listed ==> Some(n.id) != selected) ==>
              r == if listed != [] then Some(listed[0].id) else None
  {
    if Truthy(selected) && FirstIndex(listed, NoteIdIs(selected.value)) == |listed| then
      if |listed| > 0 then Some(listed[0].id) else None
    else
      assert Truthy(selected) ==> FirstIndex(listed, NoteIdIs(selected.value)) < |listed|;
      selected
  }

  /** Once the fallback has run, running it again changes nothing. */
  lemma SelectionFallbackIdempotent(listed: seq<Note>, selected: Option<string>)
    ensures SelectionFallback(listed, SelectionFallback(listed, selected)) == SelectionFallback(listed, selected)
  {
    var r := SelectionFallback(listed, selected);
    if r.Some? && listed != [] && r == Some(listed[0].id) {
      assert listed[0] in listed;
    }
  }

  /** After the fallback the selection is none, falsy, or a listed note. */
  lemma SelectionFallbackListed(listed: seq<Note>, selected: Option<string>)
    ensures var r := SelectionFallback(listed, selected);
      !Truthy(r) || exists n :: n in listed && Some(n.id) == r
  {
    var r := SelectionFallback(listed, selected);
    if Truthy(selected) && (forall n :: n in listed ==> Some(n.id) != selected) && listed != [] {
      assert listed[0] in listed;
    }
  }
}
