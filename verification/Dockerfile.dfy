/** Qualifying image names: Podman does not resolve short names, so the FROM lines of a Dockerfile
    are rewritten to name their registry. */
module Dockerfile {

  /** Kinds of characters that are trimmed: blanks and tabs, or all that Unicode counts as white space. */
  datatype Kind = Blank | Space

  predicate Is(c: char, k: Kind) {
    || c == ' ' || c == '\t'
    || (k.Space? && ('\n' <= c <= '\r' || c == '\U{85}' || c == '\U{A0}' || c == '\U{1680}' || '\U{2000}' <= c <= '\U{200A}'
                     || c == '\U{2028}' || c == '\U{2029}' || c == '\U{202F}' || c == '\U{205F}' || c == '\U{3000}'))
  }

  // ---- strings ----

  function TrimLeft(s: string, cut: Kind): (r: string)
    ensures |r| <= |s|
  {
    if s != "" && Is(s[0], cut) then TrimLeft(s[1..], cut) else s
  }

  function TrimRight(s: string, cut: Kind): string {
    if s != "" && Is(s[|s| - 1], cut) then TrimRight(s[..|s| - 1], cut) else s
  }

  function TrimSpace(s: string): string {
    TrimRight(TrimLeft(s, Space), Space)
  }

  /** Letters other than these four pairs never become one of the four by changing case. */
  predicate IsFrom(trimmed: string) {
    && |trimmed| >= 5
    && trimmed[0] in "Ff" && trimmed[1] in "Rr" && trimmed[2] in "Oo" && trimmed[3] in "Mm"
    && trimmed[4] == ' '
  }

  function Split(s: string, sep: char): (parts: seq<string>)
    ensures parts != []
  {
    if s == "" then [""]
    else
      var rest := Split(s[1..], sep);
      if s[0] == sep then [""] + rest else [[s[0]] + rest[0]] + rest[1..]
  }

  function Join(parts: seq<string>, sep: char): string {
    if parts == [] then "" else if |parts| == 1 then parts[0] else parts[0] + [sep] + Join(parts[1..], sep)
  }

  /** The longest prefix without white space. */
  function Word(s: string): (w: string)
    ensures |w| <= |s|
  {
    if s == "" || Is(s[0], Space) then "" else [s[0]] + Word(s[1..])
  }

  function Fields(s: string): seq<string> {
    if s == "" then []
    else if Is(s[0], Space) then Fields(s[1..])
    else [Word(s)] + Fields(s[|Word(s)|..])
  }

  predicate IsWord(w: string) {
    w != "" && forall c | c in w :: !Is(c, Space)
  }

  ghost predicate Words(ws: seq<string>) {
    forall w | w in ws :: IsWord(w)
  }

  /** White space, by code point. */
  lemma SpaceIff(c: char)
    ensures Is(c, Space) <==>
              (c as int) in {9, 10, 11, 12, 13, 32, 133, 160, 5760, 8192, 8193, 8194, 8195, 8196, 8197, 8198, 8199, 8200, 8201, 8202,
                             8232, 8233, 8239, 8287, 12288}
    ensures Is(c, Blank) <==> (c as int) in {9, 32}
  {
  }

  /** Trimming takes off white space at both ends, all of it, and nothing else. */
  lemma Trimmed(s: string) returns (left: string, right: string)
    ensures s == left + TrimSpace(s) + right && forall c | c in left + right :: Is(c, Space)
    ensures var t := TrimSpace(s); t != "" ==> !Is(t[0], Space) && !Is(t[|t| - 1], Space)
  {
    left := TrimmedLeft(s);
    var t := TrimLeft(s, Space);
    right := TrimmedRight(t);
    assert s == left + (TrimSpace(s) + right);
    assert TrimSpace(s) != "" ==> TrimSpace(s)[0] == t[0];
  }

  lemma {:induction false} TrimmedLeft(s: string) returns (left: string)
    ensures s == left + TrimLeft(s, Space) && forall c | c in left :: Is(c, Space)
    ensures TrimLeft(s, Space) != "" ==> !Is(TrimLeft(s, Space)[0], Space)
  {
    if s != "" && Is(s[0], Space) {
      var rest := TrimmedLeft(s[1..]);
      left := [s[0]] + rest;
    } else {
      left := "";
    }
  }

  lemma {:induction false} TrimmedRight(s: string) returns (right: string)
    ensures s == TrimRight(s, Space) + right && forall c | c in right :: Is(c, Space)
    ensures TrimRight(s, Space) != "" ==> !Is(TrimRight(s, Space)[|TrimRight(s, Space)| - 1], Space)
  {
    if s != "" && Is(s[|s| - 1], Space) {
      var rest := TrimmedRight(s[..|s| - 1]);
      right := rest + [s[|s| - 1]];
    } else {
      right := "";
    }
  }

  /** One more character in front: it begins a piece, or ends an empty one. */
  lemma JoinFront(c: char, parts: seq<string>, sep: char)
    requires parts != []
    ensures Join([[c] + parts[0]] + parts[1..], sep) == [c] + Join(parts, sep)
    ensures Join([""] + parts, sep) == [sep] + Join(parts, sep)
  {
    assert ([[c] + parts[0]] + parts[1..])[1..] == parts[1..] && ([""] + parts)[1..] == parts;
  }

  lemma {:induction false} JoinSplit(s: string, sep: char)
    ensures Join(Split(s, sep), sep) == s
  {
    if s != "" {
      JoinSplit(s[1..], sep);
      JoinFront(s[0], Split(s[1..], sep), sep);
      assert s == [s[0]] + s[1..];
    }
  }

  /** The pieces are free of the separator. */
  lemma {:induction false} PiecesAreFree(s: string, sep: char)
    ensures forall p | p in Split(s, sep) :: sep !in p
  {
    if s != "" {
      PiecesAreFree(s[1..], sep);
      var rest := Split(s[1..], sep);
      assert rest[0] in rest;
    }
  }

  lemma {:induction false} SplitOne(p: string, sep: char)
    requires sep !in p
    ensures Split(p, sep) == [p]
  {
    if p != "" {
      SplitOne(p[1..], sep);
      assert p == [p[0]] + p[1..];
    }
  }

  lemma {:induction false} SplitFirst(p: string, more: string, sep: char)
    requires sep !in p
    ensures Split(p + [sep] + more, sep) == [p] + Split(more, sep)
  {
    var s := p + [sep] + more;
    if p == "" {
      assert s[1..] == more;
    } else {
      SplitFirst(p[1..], more, sep);
      assert s[1..] == p[1..] + [sep] + more;
      assert p == [p[0]] + p[1..];
    }
  }

  lemma {:induction false} SplitJoin(parts: seq<string>, sep: char)
    requires parts != [] && forall p | p in parts :: sep !in p
    ensures Split(Join(parts, sep), sep) == parts
  {
    assert parts[0] in parts;
    if |parts| == 1 {
      SplitOne(parts[0], sep);
    } else {
      SplitJoin(parts[1..], sep);
      SplitFirst(parts[0], Join(parts[1..], sep), sep);
    }
  }

  lemma {:induction false} WordIsPrefix(s: string)
    ensures Word(s) <= s && forall c | c in Word(s) :: !Is(c, Space)
  {
    if s != "" && !Is(s[0], Space) {
      WordIsPrefix(s[1..]);
    }
  }

  lemma {:induction false} FieldsAreWords(s: string)
    ensures Words(Fields(s))
    ensures forall w, c | w in Fields(s) && c in w :: c in s
    decreases |s|
  {
    if s != "" {
      if Is(s[0], Space) {
        FieldsAreWords(s[1..]);
      } else {
        WordIsPrefix(s);
        FieldsAreWords(s[|Word(s)|..]);
      }
    }
  }

  lemma {:induction false} WordIs(w: string, more: string)
    requires (forall c | c in w :: !Is(c, Space)) && (more != "" ==> Is(more[0], Space))
    ensures Word(w + more) == w
  {
    if w == "" {
      assert w + more == more;
    } else {
      WordIs(w[1..], more);
      assert (w + more)[1..] == w[1..] + more;
      assert w[0] in w && w == [w[0]] + w[1..];
    }
  }

  /** Taking words apart that were put together with spaces. */
  lemma {:induction false} FieldsOfJoin(ws: seq<string>)
    requires Words(ws)
    ensures Fields(Join(ws, ' ')) == ws
  {
    if ws != [] {
      var w, rest := ws[0], Join(ws[1..], ' ');
      assert w in ws && w[0] in w;
      var more := if |ws| == 1 then "" else " " + rest;
      assert Join(ws, ' ') == w + more;
      WordIs(w, more);
      assert (w + more)[|w|..] == more;
      FieldsOfJoin(ws[1..]);
      assert more != "" ==> more[1..] == rest;
    }
  }

  /** Words joined by spaces have no white space at either end. */
  lemma {:induction false} JoinEnds(ws: seq<string>)
    requires Words(ws) && ws != []
    ensures var j := Join(ws, ' '); j != "" && !Is(j[0], Space) && !Is(j[|j| - 1], Space)
  {
    var w := ws[0];
    assert w in ws && w[0] in w && w[|w| - 1] in w;
    if |ws| > 1 {
      JoinEnds(ws[1..]);
    }
  }

  lemma {:induction false} TrimLeftIndent(indent: string, s: string, cut: Kind)
    requires (forall c | c in indent :: Is(c, cut)) && s != "" && !Is(s[0], cut)
    ensures TrimLeft(indent + s, cut) == s
  {
    if indent == "" {
      assert indent + s == s;
    } else {
      TrimLeftIndent(indent[1..], s, cut);
      assert indent[0] in indent && (indent + s)[1..] == indent[1..] + s;
    }
  }

  // ---- image names ----

  /** The part before the first slash, if there is one. */
  function Registry(image: string): string {
    Split(image, '/')[0]
  }

  /** The name says which registry it belongs to. */
  predicate Qualified(image: string) {
    '/' in image && ('.' in Registry(image) || ':' in Registry(image) || Registry(image) == "localhost")
  }

  const DOCKER_HUB := "docker.io/"

  function QualifyImage(image: string, isPodman: bool): string {
    if !isPodman || Qualified(image) then image else DOCKER_HUB + image
  }

  /** The result names its registry, and names that do are left alone. */
  lemma QualifyFixes(image: string)
    ensures Qualified(QualifyImage(image, true))
    ensures QualifyImage(QualifyImage(image, true), true) == QualifyImage(image, true)
    ensures QualifyImage(image, true) == image <==> Qualified(image)
  {
    SplitFirst("docker.io", image, '/');
    assert DOCKER_HUB + image == "docker.io" + ['/'] + image;
    assert "docker.io"[6] == '.';
  }

  /** A name says which registry it belongs to if what is before its first slash has a dot or a colon in it or is
      the local host. */
  lemma QualifiedIff(image: string)
    ensures Qualified(image) <==>
              exists i | 0 <= i < |image| :: image[i] == '/' && '/' !in image[..i]
                && ('.' in image[..i] || ':' in image[..i] || image[..i] == "localhost")
    ensures QualifyImage(image, false) == image
    ensures QualifyImage(image, true) == if Qualified(image) then image else "docker.io/" + image
  {
    if '/' in image {
      var i := FirstSlash(image);
      assert image == image[..i] + ['/'] + image[i + 1..];
      SplitFirst(image[..i], image[i + 1..], '/');
      forall j | 0 <= j < |image|
        ensures image[j] == '/' && '/' !in image[..j] <==> j == i
      {
        assert i < j ==> image[..j][i] == '/';
        assert j < i ==> image[..i][j] == image[j];
      }
    }
  }

  lemma {:induction false} FirstSlash(s: string) returns (i: nat)
    requires '/' in s
    ensures i < |s| && s[i] == '/' && '/' !in s[..i]
  {
    if s[0] == '/' {
      i := 0;
    } else {
      var k := FirstSlash(s[1..]);
      i := k + 1;
      assert s[..i] == [s[0]] + s[1..][..k];
    }
  }

  // ---- FROM lines ----

  function Indent(line: string): string {
    line[..|line| - |TrimLeft(line, Blank)|]
  }

  function WordsOf(line: string): seq<string> {
    Fields(TrimSpace(line))
  }

  /** The line starts a stage from an image other than the empty one or one given by a variable. */
  predicate ToRewrite(line: string) {
    var words := WordsOf(line);
    IsFrom(TrimSpace(line)) && |words| >= 2 && words[1] != "scratch" && !("$" <= words[1])
  }

  function Replaced(words: seq<string>): seq<string>
    requires |words| >= 2
  {
    words[1 := QualifyImage(words[1], true)]
  }

  function RewriteLine(line: string): string {
    if ToRewrite(line) then Indent(line) + Join(Replaced(WordsOf(line)), ' ') else line
  }

  function RewriteLines(lines: seq<string>): seq<string> {
    seq(|lines|, i requires 0 <= i < |lines| => RewriteLine(lines[i]))
  }

  function QualifyFroms(dockerfile: string): string {
    Join(RewriteLines(Split(dockerfile, '\n')), '\n')
  }

  method Rewrite(line: string) returns (r: string)
    ensures r == RewriteLine(line)
  {
    var trimmed := TrimSpace(line);
    if !IsFrom(trimmed) {
      return line;
    }
    var indent := line[..|line| - |TrimLeft(line, Blank)|];
    var parts := Fields(trimmed);
    if |parts| < 2 {
      return line;
    }
    var img := parts[1];
    if img == "scratch" || "$" <= img {
      return line;
    }
    parts := parts[1 := QualifyImage(img, true)];
    r := indent + Join(parts, ' ');
  }

  /** Overwrites, in place, the lines that start a stage. */
  method RewriteAll(lines: array<string>)
    modifies lines
    ensures lines[..] == RewriteLines(old(lines[..]))
  {
    ghost var was := lines[..];
    for i := 0 to lines.Length
      invariant lines[..i] == RewriteLines(was[..i]) && lines[i..] == was[i..]
    {
      assert lines[i] == was[i] && was[..i + 1][..i] == was[..i];
      var r := Rewrite(lines[i]);
      lines[i] := r;
      assert lines[..i + 1] == lines[..i] + [r];
    }
    assert lines[..] == lines[..lines.Length] && was[..lines.Length] == was;
  }

  method QualifyDockerfileFroms(dockerfile: string) returns (r: string)
    ensures r == QualifyFroms(dockerfile)
  {
    var was := Split(dockerfile, '\n');
    var lines := new string[|was|](i requires 0 <= i < |was| => was[i]);
    assert lines[..] == was;
    RewriteAll(lines);
    r := Join(lines[..], '\n');
  }

  // ---- what rewriting keeps ----

  lemma WordsQualified(ws: seq<string>)
    requires Words(ws) && |ws| >= 2
    ensures Words(Replaced(ws))
  {
    assert ws[1] in ws;
    assert forall c | c in DOCKER_HUB :: !Is(c, Space);
    var q := QualifyImage(ws[1], true);
    assert forall c | c in q :: c in DOCKER_HUB || c in ws[1];
    assert q != "";
    forall w | w in ws[1 := q]
      ensures IsWord(w)
    {
      assert w == q || w in ws;
    }
  }

  /** Reading back what was put together: the same indentation and the same words. */
  lemma ReadBack(indent: string, ws: seq<string>)
    requires (forall c | c in indent :: Is(c, Blank)) && Words(ws) && ws != []
    ensures var line := indent + Join(ws, ' ');
            TrimSpace(line) == Join(ws, ' ') && WordsOf(line) == ws && Indent(line) == indent
  {
    var j := Join(ws, ' ');
    JoinEnds(ws);
    TrimLeftIndent(indent, j, Space);
    TrimLeftIndent(indent, j, Blank);
    FieldsOfJoin(ws);
    assert (indent + j)[..|indent + j| - |j|] == indent;
  }

  lemma {:induction false} IndentIsBlank(line: string)
    ensures forall c | c in Indent(line) :: Is(c, Blank)
  {
    if line != "" && Is(line[0], Blank) {
      IndentIsBlank(line[1..]);
      assert Indent(line) == [line[0]] + Indent(line[1..]);
    }
  }

  /** A FROM line keeps its first word, in whatever case it was written. */
  lemma FirstWordOfFrom(trimmed: string)
    requires IsFrom(trimmed)
    ensures Fields(trimmed) != [] && Fields(trimmed)[0] == trimmed[..4]
  {
    assert forall c | c in trimmed[..4] :: c in "FfRrOoMm";
    assert forall c | c in "FfRrOoMm" :: !Is(c, Space);
    assert trimmed == trimmed[..4] + trimmed[4..];
    WordIs(trimmed[..4], trimmed[4..]);
    assert trimmed[0] in trimmed[..4];
  }

  lemma FromWords(ws: seq<string>, head: string)
    requires |ws| >= 2 && ws[0] == head && |head| == 4 && IsFrom(head + " ")
    ensures IsFrom(Join(ws, ' '))
  {
  }

  /** A rewritten line read again: the same words, but for the image. */
  lemma RewrittenLine(line: string)
    requires ToRewrite(line)
    ensures WordsOf(RewriteLine(line)) == Replaced(WordsOf(line))
    ensures Indent(RewriteLine(line)) == Indent(line)
    ensures IsFrom(TrimSpace(RewriteLine(line)))
  {
    var trimmed, ws := TrimSpace(line), WordsOf(line);
    FieldsAreWords(trimmed);
    WordsQualified(ws);
    IndentIsBlank(line);
    ReadBack(Indent(line), Replaced(ws));
    FirstWordOfFrom(trimmed);
    FromWords(Replaced(ws), trimmed[..4]);
  }

  lemma ReplacedTwice(ws: seq<string>)
    requires |ws| >= 2
    ensures Replaced(Replaced(ws)) == Replaced(ws)
  {
    QualifyFixes(ws[1]);
  }

  /** Rewriting a line again changes nothing, and the image of a rewritten line is qualified. */
  lemma LineTwice(line: string)
    ensures RewriteLine(RewriteLine(line)) == RewriteLine(line)
    ensures ToRewrite(line) ==>
              var words := WordsOf(RewriteLine(line)); |words| >= 2 && QualifyImage(words[1], true) == words[1]
  {
    if ToRewrite(line) {
      RewrittenLine(line);
      QualifyFixes(WordsOf(line)[1]);
      ReplacedTwice(WordsOf(line));
    }
  }

  lemma {:induction false} JoinChars(parts: seq<string>, sep: char, c: char)
    requires c in Join(parts, sep)
    ensures c == sep || exists p | p in parts :: c in p
  {
    if |parts| > 1 {
      assert parts[0] in parts;
      if c !in parts[0] && c != sep {
        JoinChars(parts[1..], sep, c);
        var p :| p in parts[1..] && c in p;
        assert p in parts;
      }
    } else {
      assert parts[0] in parts;
    }
  }

  lemma RewriteAddsNoLine(line: string)
    requires '\n' !in line
    ensures '\n' !in RewriteLine(line)
  {
    if ToRewrite(line) && '\n' in RewriteLine(line) {
      var ws := WordsOf(line);
      IndentIsBlank(line);
      assert !Is('\n', Blank);
      JoinChars(Replaced(ws), ' ', '\n');
      FieldsAreWords(TrimSpace(line));
      WordsQualified(ws);
    }
  }

  /** The lines of the result are the lines of the Dockerfile, one by one: as they were, or rewritten. */
  lemma LineByLine(dockerfile: string)
    ensures var lines, lines' := Split(dockerfile, '\n'), Split(QualifyFroms(dockerfile), '\n');
            |lines'| == |lines| && forall i | 0 <= i < |lines| :: lines'[i] == RewriteLine(lines[i])
    ensures Split(QualifyFroms(dockerfile), '\n') == RewriteLines(Split(dockerfile, '\n'))
  {
    PiecesAreFree(dockerfile, '\n');
    var lines := Split(dockerfile, '\n');
    var lines' := RewriteLines(lines);
    forall p | p in lines'
      ensures '\n' !in p
    {
      var i :| 0 <= i < |lines'| && lines'[i] == p;
      assert lines[i] in lines;
      RewriteAddsNoLine(lines[i]);
    }
    SplitJoin(lines', '\n');
  }

  lemma LinesTwice(lines: seq<string>)
    ensures RewriteLines(RewriteLines(lines)) == RewriteLines(lines)
  {
    forall i | 0 <= i < |lines|
      ensures RewriteLine(RewriteLine(lines[i])) == RewriteLine(lines[i])
    {
      LineTwice(lines[i]);
    }
  }

  /** Qualifying twice is qualifying once. */
  lemma QualifyingIsIdempotent(dockerfile: string)
    ensures QualifyFroms(QualifyFroms(dockerfile)) == QualifyFroms(dockerfile)
  {
    LineByLine(dockerfile);
    LinesTwice(Split(dockerfile, '\n'));
  }

  /** A Dockerfile without lines to rewrite stays as it is, to the byte. */
  lemma NothingToRewrite(dockerfile: string)
    requires forall line | line in Split(dockerfile, '\n') :: !ToRewrite(line)
    ensures QualifyFroms(dockerfile) == dockerfile
  {
    JoinSplit(dockerfile, '\n');
    var lines := Split(dockerfile, '\n');
    forall i | 0 <= i < |lines|
      ensures RewriteLine(lines[i]) == lines[i]
    {
      assert lines[i] in lines;
    }
    assert RewriteLines(lines) == lines;
  }

  lemma JoinThree(a: string, b: string, c: string)
    ensures Join([a, b, c], ' ') == a + " " + b + " " + c
  {
    assert [a, b, c][1..] == [b, c] && [b, c][1..] == [c];
    assert Join([b, c], ' ') == b + " " + c;
  }

  /** A flag in front of the image is taken for the image. */
  lemma FlagTakenForImage(head: string, flag: string, image: string)
    requires |head| == 4 && IsFrom(head + " ") && IsWord(flag) && IsWord(image)
    requires !Qualified(flag) && flag != "scratch" && !("$" <= flag)
    ensures RewriteLine(head + " " + flag + " " + image) == head + " " + QualifyImage(flag, true) + " " + image
    ensures QualifyImage(flag, true) == DOCKER_HUB + flag
  {
    var ws, line := [head, flag, image], head + " " + flag + " " + image;
    HeadIsWord(head);
    JoinThree(head, flag, image);
    ReadBack("", ws);
    assert "" + line == line && Indent(line) == "";
    FromWords(ws, head);
    var q := QualifyImage(flag, true);
    assert Replaced(ws) == [head, q, image];
    JoinThree(head, q, image);
  }

  lemma HeadIsWord(head: string)
    requires |head| == 4 && IsFrom(head + " ")
    ensures IsWord(head)
  {
  }

  // ---- which stages get the image they should ----

  /** Flags come between FROM and the image. */
  predicate IsFlag(word: string) {
    "--" <= word
  }

  /** Where the image is: the first word from the i-th on that is not a flag. */
  function ImageAt(words: seq<string>, i: nat): nat
    decreases |words| - i
  {
    if i < |words| && IsFlag(words[i]) then ImageAt(words, i + 1) else i
  }

  function Lower(s: string): string {
    if s == "" then ""
    else [if 'A' <= s[0] <= 'Z' then ((s[0] as int) + 32) as char else s[0]] + Lower(s[1..])
  }

  /** The line starts a stage: its first word is FROM, and there is a second one. */
  predicate StartsStage(words: seq<string>) {
    |words| >= 2 && Lower(words[0]) == "from"
  }

  /** The name a line gives to the stage it starts. */
  function StageOf(words: seq<string>): set<string> {
    var at := ImageAt(words, 1);
    if StartsStage(words) && at + 2 < |words| && Lower(words[at + 1]) == "as" then {Lower(words[at + 2])} else {}
  }

  /** The stages that earlier lines have given a name, which a later line can build upon. */
  function StagesBefore(lines: seq<string>, i: nat): set<string>
    requires i <= |lines|
  {
    if i == 0 then {} else StagesBefore(lines, i - 1) + StageOf(WordsOf(lines[i - 1]))
  }

  /** An image that is to be used under the name it has: the empty one, one given by a variable, one that
      names its registry, or an earlier stage. */
  predicate Final(image: string) {
    image == "scratch" || "$" <= image || Qualified(image)
  }

  predicate ToKeep(image: string, stages: set<string>) {
    Final(image) || Lower(image) in stages
  }

  /** What the line should become: its image qualified, if need be, and nothing else touched. */
  function Intended(words: seq<string>, stages: set<string>): seq<string> {
    var at := ImageAt(words, 1);
    if at < |words| && !ToKeep(words[at], stages) then words[at := DOCKER_HUB + words[at]] else words
  }

  /** What makes the rewriting right, to be seen from the line and the earlier stages: FROM is followed by
      a blank, no flag is in the way, and the image is not a stage; or there is nothing to do. */
  predicate Suits(line: string, stages: set<string>) {
    var words := WordsOf(line);
    var at := ImageAt(words, 1);
    var nothingToDo := at < |words| ==> ToKeep(words[at], stages);
    if !IsFrom(TrimSpace(line)) then nothingToDo
    else if |words| >= 2 && IsFlag(words[1]) then Qualified(words[1]) && nothingToDo
    else |words| >= 2 && (Lower(words[1]) in stages ==> Final(words[1]))
  }

  lemma {:induction false} LowerAt(s: string, i: nat)
    requires i < |s|
    ensures |Lower(s)| == |s|
    ensures Lower(s)[i] == if 'A' <= s[i] <= 'Z' then ((s[i] as int) + 32) as char else s[i]
    decreases |s|
  {
    if |s| > 1 {
      LowerAt(s[1..], if i > 0 then i - 1 else 0);
    }
  }

  /** A line is taken for one that starts a stage if its first four letters are FROM, in any case, and a blank follows. */
  lemma IsFromIff(trimmed: string)
    ensures IsFrom(trimmed) <==> |trimmed| >= 5 && Lower(trimmed[..4]) == "from" && trimmed[4] == ' '
  {
    if |trimmed| >= 5 {
      var t := trimmed[..4];
      LowerAt(t, 0);
      LowerAt(t, 1);
      LowerAt(t, 2);
      LowerAt(t, 3);
      var l := Lower(t);
      assert l == "from" <==> l[0] == 'f' && l[1] == 'r' && l[2] == 'o' && l[3] == 'm';
    }
  }

  /** What is rewritten does start a stage. */
  lemma RewrittenStartsStage(line: string)
    requires ToRewrite(line)
    ensures StartsStage(WordsOf(line))
  {
    FirstWordOfFrom(TrimSpace(line));
    IsFromIff(TrimSpace(line));
  }

  /** The word behind AS, when that follows the image of a FROM line. */
  predicate NamesStage(words: seq<string>, name: string) {
    var at := ImageAt(words, 1);
    at + 2 < |words| && Lower(words[0]) == "from" && Lower(words[at + 1]) == "as" && Lower(words[at + 2]) == name
  }

  lemma StageIs(words: seq<string>, name: string)
    ensures name in StageOf(words) <==> NamesStage(words, name)
  {
    ImageFrom(words, 1);
  }

  lemma {:induction false} StageStays(lines: seq<string>, i: nat, j: nat, name: string)
    requires j < i <= |lines| && NamesStage(WordsOf(lines[j]), name)
    ensures name in StagesBefore(lines, i)
  {
    if j < i - 1 {
      StageStays(lines, i - 1, j, name);
    } else {
      StageIs(WordsOf(lines[j]), name);
    }
  }

  lemma {:induction false} StageCame(lines: seq<string>, i: nat, name: string) returns (j: nat)
    requires i <= |lines| && name in StagesBefore(lines, i)
    ensures j < i && NamesStage(WordsOf(lines[j]), name)
  {
    if name in StageOf(WordsOf(lines[i - 1])) {
      j := i - 1;
      StageIs(WordsOf(lines[j]), name);
    } else {
      j := StageCame(lines, i - 1, name);
    }
  }

  /** The stages an earlier line has given a name are those that an earlier line names. */
  lemma StagesAre(lines: seq<string>, i: nat, name: string)
    requires i <= |lines|
    ensures name in StagesBefore(lines, i) <==> exists j | 0 <= j < i :: NamesStage(WordsOf(lines[j]), name)
  {
    if name in StagesBefore(lines, i) {
      var j := StageCame(lines, i, name);
    } else if j :| 0 <= j < i && NamesStage(WordsOf(lines[j]), name) {
      StageStays(lines, i, j, name);
    }
  }

  lemma FlagAtOne(words: seq<string>)
    requires |words| >= 2
    ensures IsFlag(words[1]) ==> ImageAt(words, 1) >= 2
    ensures !IsFlag(words[1]) ==> ImageAt(words, 1) == 1
    ensures IsFlag(words[1]) ==> words[1] != "scratch" && !("$" <= words[1])
  {
    if IsFlag(words[1]) {
      ImageFrom(words, 2);
      assert words[1][0] == "--"[0];
    }
  }

  lemma {:induction false} ImageFrom(words: seq<string>, i: nat)
    ensures ImageAt(words, i) >= i
    decreases |words| - i
  {
    if i < |words| && IsFlag(words[i]) {
      ImageFrom(words, i + 1);
    }
  }

  /** The words of a line after the rewriting. */
  lemma WordsAfter(line: string)
    ensures WordsOf(RewriteLine(line)) == if ToRewrite(line) then Replaced(WordsOf(line)) else WordsOf(line)
  {
    if ToRewrite(line) {
      RewrittenLine(line);
    }
  }

  lemma QualifyWords(words: seq<string>, stages: set<string>)
    requires |words| >= 2
    ensures IsFlag(words[1]) ==>
              (Replaced(words) == Intended(words, stages) <==>
                 Qualified(words[1]) && (var at := ImageAt(words, 1); at < |words| ==> ToKeep(words[at], stages)))
    ensures !IsFlag(words[1]) && !(words[1] == "scratch") && !("$" <= words[1]) ==>
              (Replaced(words) == Intended(words, stages) <==> (Lower(words[1]) in stages ==> Final(words[1])))
  {
    FlagAtOne(words);
    QualifyFixes(words[1]);
    var at, r, n := ImageAt(words, 1), Replaced(words), Intended(words, stages);
    assert DOCKER_HUB + words[1] != words[1];
    if IsFlag(words[1]) {
      assert n[1] == words[1] && r[1] == QualifyImage(words[1], true);
      if Qualified(words[1]) {
        assert r == words;
        assert at < |words| ==> |DOCKER_HUB + words[at]| != |words[at]|;
        assert at < |words| && !ToKeep(words[at], stages) ==> n[at] == DOCKER_HUB + words[at];
      }
    } else {
      assert r[1] == QualifyImage(words[1], true);
      assert n == words || n == words[1 := DOCKER_HUB + words[1]];
      assert words[1 := words[1]] == words;
    }
  }

  /** A line that starts a stage comes out right exactly if it suits. */
  lemma RightIff(line: string, stages: set<string>)
    requires StartsStage(WordsOf(line))
    ensures WordsOf(RewriteLine(line)) == Intended(WordsOf(line), stages) <==> Suits(line, stages)
  {
    var words := WordsOf(line);
    WordsAfter(line);
    FlagAtOne(words);
    QualifyWords(words, stages);
  }

  /** All stages of a Dockerfile come out right exactly if every line that starts one suits. */
  lemma AllRightIff(dockerfile: string)
    ensures var lines, lines' := Split(dockerfile, '\n'), Split(QualifyFroms(dockerfile), '\n');
            && |lines'| == |lines|
            && ((forall i | 0 <= i < |lines| && StartsStage(WordsOf(lines[i])) ::
                   WordsOf(lines'[i]) == Intended(WordsOf(lines[i]), StagesBefore(lines, i)))
                <==> forall i | 0 <= i < |lines| && StartsStage(WordsOf(lines[i])) :: Suits(lines[i], StagesBefore(lines, i)))
  {
    LineByLine(dockerfile);
    var lines, lines' := Split(dockerfile, '\n'), Split(QualifyFroms(dockerfile), '\n');
    forall i | 0 <= i < |lines| && StartsStage(WordsOf(lines[i]))
      ensures WordsOf(lines'[i]) == Intended(WordsOf(lines[i]), StagesBefore(lines, i)) <==> Suits(lines[i], StagesBefore(lines, i))
    {
      RightIff(lines[i], StagesBefore(lines, i));
    }
  }

  lemma JoinTwo(a: string, b: string)
    ensures Join([a, b], ' ') == a + " " + b
  {
  }

  /** The name of an earlier stage is qualified like any other name without a registry. */
  lemma StageTakenForImage(head: string, stage: string)
    requires |head| == 4 && IsFrom(head + " ") && IsWord(stage) && !Final(stage)
    ensures RewriteLine(head + " " + stage) == head + " " + (DOCKER_HUB + stage)
  {
    var ws, line := [head, stage], head + " " + stage;
    HeadIsWord(head);
    JoinTwo(head, stage);
    ReadBack("", ws);
    assert "" + line == line && Indent(line) == "";
    FromWords(ws, head);
    assert Replaced(ws) == [head, DOCKER_HUB + stage];
    JoinTwo(head, DOCKER_HUB + stage);
  }

  /** A line that ends in a carriage return keeps it exactly if it is not rewritten. */
  lemma CarriageReturnKeptIff(line: string)
    requires line != "" && line[|line| - 1] == '\r'
    ensures var r := RewriteLine(line); r != "" && (r[|r| - 1] == '\r' <==> !ToRewrite(line))
  {
    if ToRewrite(line) {
      var ws := WordsOf(line);
      FieldsAreWords(TrimSpace(line));
      WordsQualified(ws);
      JoinEnds(Replaced(ws));
      assert Is('\r', Space);
    }
  }
}
