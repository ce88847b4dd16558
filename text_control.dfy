/**
 * The version-info plugin sample's rewrite of a POU declaration: the text is
 * cut into its non-empty lines; a line mentioning VERSION or AUTHOR is replaced
 * by a fresh constant declaration; a text that mentions neither gets a
 * VAR CONSTANT block appended instead.
 *
 * Only the text transformation is modelled; the tree walk that finds the POUs
 * and the reading and writing of their declarations are not.
 */
module TextControl {
  import opened Wrappers
  import Strings

  /** `parts` with its empty pieces dropped, the others kept in order. */
  function NonEmpty(parts: seq<string>): (r: seq<string>)
    ensures forall x :: x in r <==> x in parts && x != ""
    decreases |parts|
  {
    if |parts| == 0 then []
    else
      assert forall x :: x in parts <==> x == parts[0] || x in parts[1..];
      (if parts[0] == "" then [] else [parts[0]]) + NonEmpty(parts[1..])
  }

  /** `Split(new[] { "\n" }, StringSplitOptions.RemoveEmptyEntries)`. */
  function SplitNonEmpty(s: string, sep: char): (r: seq<string>)
    ensures forall x :: x in r ==> x != "" && sep !in x
  {
    Strings.SplitSepFree(s, sep);
    NonEmpty(Strings.Split(s, sep))
  }

  function VersionLine(version: string): string
  {
    "\tVERSION : STRING := '" + version + "';"
  }

  function AuthorLine(author: string): string
  {
    "\tAUTHOR : STRING := '" + author + "';"
  }

  /** The block appended to a declaration without tags, as the sample writes it. */
  function ConstantBlock(version: string, author: string): string
  {
    "\nVAR CONSTANT\n\tVERSION : STRING := '" + version + "';\n\t AUTHOR : STRING := '" + author + "'\nEND_VAR"
  }

  predicate Tagged(line: string)
  {
    Strings.Contains(line, "VERSION") || Strings.Contains(line, "AUTHOR")
  }

  /**
   * One line after the rewrite; VERSION takes precedence over AUTHOR. An untagged
   * line is kept; a tagged one becomes a replacement line, which is tagged again.
   */
  function RewriteLine(line: string, version: string, author: string): (r: string)
    ensures !Tagged(line) ==> r == line
    ensures Tagged(line) ==> (r == VersionLine(version) || r == AuthorLine(author)) && Tagged(r)
  {
    VersionLineTagged(version);
    AuthorLineTagged(author);
    if Strings.Contains(line, "VERSION") then VersionLine(version)
    else if Strings.Contains(line, "AUTHOR") then AuthorLine(author)
    else line
  }

  function RewriteLines(lines: seq<string>, version: string, author: string): (r: seq<string>)
    ensures |r| == |lines|
    ensures forall i :: 0 <= i < |lines| ==> r[i] == RewriteLine(lines[i], version, author)
  {
    seq(|lines|, i requires 0 <= i < |lines| => RewriteLine(lines[i], version, author))
  }

  /**
   * The declaration text the sample writes back, or `None` when it writes none:
   * the rewritten lines joined by newlines when some line carries a tag, the text
   * with the block appended when none does, and nothing for a text without
   * non-empty lines.
   */
  function Rewritten(text: string, version: string, author: string): (r: Option<string>)
    ensures r.None? <==> forall k :: 0 <= k < |text| ==> text[k] == '\n'
  {
    NothingLeft(text, '\n');
    var lines := SplitNonEmpty(text, '\n');
    if exists j :: 0 <= j < |lines| && Tagged(lines[j]) then Some(Strings.Join(RewriteLines(lines, version, author), '\n'))
    else if |lines| > 0 then Some(text + ConstantBlock(version, author))
    else None
  }

  /** The loop in `activate` that rewrites one POU's declaration, on the array of its lines. */
  method RewriteDeclaration(declarationText: string, version: string, author: string) returns (written: Option<string>)
    ensures written == Rewritten(declarationText, version, author)
  {
    var parts := SplitNonEmpty(declarationText, '\n');
    var arrText := new string[|parts|](i requires 0 <= i < |parts| => parts[i]);
    var versionFound, authorFound := false, false;
    written := None;
    for i := 0 to arrText.Length
      invariant forall j :: 0 <= j < i ==> arrText[j] == RewriteLine(parts[j], version, author)
      invariant forall j :: i <= j < arrText.Length ==> arrText[j] == parts[j]
      invariant (versionFound || authorFound) <==> exists j :: 0 <= j < i && Tagged(parts[j])
      invariant written == if i == |parts| && i > 0 && !(versionFound || authorFound)
                           then Some(declarationText + ConstantBlock(version, author)) else None
    {
      var versionHit, authorHit := RewriteLineAt(arrText, i, version, author);
      if !versionHit && !authorHit && i == arrText.Length - 1 && !versionFound && !authorFound {
        written := Some(declarationText + ConstantBlock(version, author));
      }
      versionFound, authorFound := versionFound || versionHit, authorFound || authorHit;
    }
    if versionFound || authorFound {
      assert arrText[..] == RewriteLines(parts, version, author);
      written := Some(Strings.Join(arrText[..], '\n'));
    }
  }

  /** One turn of that loop: the line at `i` is replaced when it carries a tag, VERSION first. */
  method RewriteLineAt(arrText: array<string>, i: nat, version: string, author: string) returns (versionHit: bool, authorHit: bool)
    requires i < arrText.Length
    modifies arrText
    ensures arrText[i] == RewriteLine(old(arrText[i]), version, author)
    ensures forall j :: 0 <= j < arrText.Length && j != i ==> arrText[j] == old(arrText[j])
    ensures versionHit || authorHit <==> Tagged(old(arrText[i]))
  {
    versionHit, authorHit := false, false;
    if Strings.Contains(arrText[i], "VERSION") {
      arrText[i] := VersionLine(version);
      versionHit := true;
    } else if Strings.Contains(arrText[i], "AUTHOR") {
      arrText[i] := AuthorLine(author);
      authorHit := true;
    }
  }

  /** Dropping empty pieces from pieces that are all empty leaves nothing, and only then. */
  lemma {:induction false} NothingLeft(s: string, sep: char)
    ensures NonEmpty(Strings.Split(s, sep)) == [] <==> forall k :: 0 <= k < |s| ==> s[k] == sep
    decreases |s|
  {
    if |s| > 0 {
      NothingLeft(s[1..], sep);
      var rest := Strings.Split(s[1..], sep);
      if s[0] == sep {
        assert Strings.Split(s, sep) == [""] + rest;
        assert ([""] + rest)[1..] == rest;
        assert forall k :: 1 <= k < |s| ==> s[k] == s[1..][k - 1];
      } else {
        assert Strings.Split(s, sep)[0] != "";
      }
    }
  }

  /** Dropping empty pieces distributes over concatenation, so the kept pieces stay in order and keep their multiplicity. */
  lemma {:induction false} NonEmptyAppend(a: seq<string>, b: seq<string>)
    ensures NonEmpty(a + b) == NonEmpty(a) + NonEmpty(b)
    decreases |a|
  {
    if |a| > 0 {
      assert (a + b)[1..] == a[1..] + b;
      NonEmptyAppend(a[1..], b);
    } else {
      assert a + b == b;
    }
  }

  /** A single piece is kept exactly when it is not empty. */
  lemma NonEmptySingle(x: string)
    ensures NonEmpty([x]) == if x == "" then [] else [x]
  {
    assert [x][1..] == [];
  }

  lemma NonEmptyKeeps(parts: seq<string>)
    requires forall x :: x in parts ==> x != ""
    ensures NonEmpty(parts) == parts
    decreases |parts|
  {
    if |parts| > 0 {
      assert parts[0] in parts;
      assert forall x :: x in parts[1..] ==> x in parts;
      NonEmptyKeeps(parts[1..]);
      assert parts == [parts[0]] + parts[1..];
    }
  }

  lemma LinesHaveNoNewline(version: string, author: string)
    requires '\n' !in version && '\n' !in author
    ensures '\n' !in VersionLine(version) && '\n' !in AuthorLine(author)
    ensures VersionLine(version) != "" && AuthorLine(author) != ""
  {
  }

  /**
   * With a version and an author free of newlines, splitting the rewritten text
   * again gives back exactly the rewritten lines: no blank line survives.
   */
  lemma Resplit(lines: seq<string>, version: string, author: string)
    requires '\n' !in version && '\n' !in author
    requires |lines| >= 1 && forall x :: x in lines ==> x != "" && '\n' !in x
    ensures SplitNonEmpty(Strings.Join(RewriteLines(lines, version, author), '\n'), '\n') == RewriteLines(lines, version, author)
  {
    var r := RewriteLines(lines, version, author);
    LinesHaveNoNewline(version, author);
    forall i | 0 <= i < |r| ensures r[i] != "" && '\n' !in r[i] {
      assert lines[i] in lines;
    }
    Strings.SplitJoin(r, '\n');
    NonEmptyKeeps(r);
  }

  /** The replacement lines carry the tags they replace. */
  lemma ReplacementsTagged(version: string, author: string)
    ensures Strings.Contains(VersionLine(version), "VERSION")
    ensures Strings.Contains(AuthorLine(author), "AUTHOR")
  {
    VersionLineTagged(version);
    AuthorLineTagged(author);
  }

  lemma VersionLineTagged(version: string)
    ensures Strings.Contains(VersionLine(version), "VERSION")
  {
    var tail := " : STRING := '" + version + "';";
    assert "\tVERSION : STRING := '" == "\t" + "VERSION" + " : STRING := '";
    assert VersionLine(version) == "\t" + "VERSION" + tail;
    Strings.ContainsInfix("\t", "VERSION", tail);
  }

  lemma AuthorLineTagged(author: string)
    ensures Strings.Contains(AuthorLine(author), "AUTHOR")
  {
    var tail := " : STRING := '" + author + "';";
    assert "\tAUTHOR : STRING := '" == "\t" + "AUTHOR" + " : STRING := '";
    assert AuthorLine(author) == "\t" + "AUTHOR" + tail;
    Strings.ContainsInfix("\t", "AUTHOR", tail);
  }

  /**
   * Running the rewrite again on a declaration whose tags it replaced changes no
   * more, provided the version and author hold no newline and the author line
   * does not itself mention VERSION.
   */
  lemma RewriteIdempotent(text: string, version: string, author: string)
    requires '\n' !in version && '\n' !in author
    requires !Strings.Contains(AuthorLine(author), "VERSION")
    requires exists j :: 0 <= j < |SplitNonEmpty(text, '\n')| && Tagged(SplitNonEmpty(text, '\n')[j])
    ensures Rewritten(text, version, author).Some?
    ensures Rewritten(Rewritten(text, version, author).value, version, author) == Rewritten(text, version, author)
  {
    var lines := SplitNonEmpty(text, '\n');
    var r := RewriteLines(lines, version, author);
    var out := Strings.Join(r, '\n');
    var j :| 0 <= j < |lines| && Tagged(lines[j]);
    Resplit(lines, version, author);
    ReplacementsTagged(version, author);
    assert SplitNonEmpty(out, '\n') == r;
    assert Tagged(r[j]);
    forall i | 0 <= i < |r| ensures RewriteLine(r[i], version, author) == r[i] {
      StableLine(lines[i], version, author);
    }
    assert RewriteLines(r, version, author) == r;
  }

  /** A rewritten line rewrites to itself. */
  lemma StableLine(line: string, version: string, author: string)
    requires !Strings.Contains(AuthorLine(author), "VERSION")
    ensures var once := RewriteLine(line, version, author);
      RewriteLine(once, version, author) == once
  {
    ReplacementsTagged(version, author);
  }

  /** The kinds of PLC tree item the sample tells apart. */
  datatype ItemType = PouFunctionBlock | PouFunction | PouProgram | OtherItem(code: int)

  /** `IsPOU`: function blocks, functions and programs, and no other item. */
  function IsPou(t: ItemType): (r: bool)
    ensures r <==> !t.OtherItem?
  {
    t == PouFunctionBlock || t == PouFunction || t == PouProgram
  }

  /** What the sample writes back for one item of the POUs folder. */
  function RewriteItem(t: ItemType, declarationText: string, version: string, author: string): (r: Option<string>)
    ensures !IsPou(t) ==> r.None?
    ensures IsPou(t) ==> r == Rewritten(declarationText, version, author)
  {
    if IsPou(t) then Rewritten(declarationText, version, author) else None
  }
}
