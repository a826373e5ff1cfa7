/** Splitting a text at its line feeds. */
module TextLines {
  /** One more character: it ends the last line or joins it. */
  function Extended(lines: seq<string>, c: char): (more: seq<string>)
    requires lines != []
    ensures |lines| <= |more| <= |lines| + 1
  {
    if c == '\n' then lines + [""] else lines[..|lines| - 1] + [lines[|lines| - 1] + [c]]
  }

  /** `text.split("\n")`. */
  function Lines(text: string): (lines: seq<string>)
    ensures 1 <= |lines| <= |text| + 1
  {
    if text == [] then [""] else Extended(Lines(text[..|text| - 1]), text[|text| - 1])
  }

  lemma ExtendsLast(a: seq<string>, b: seq<string>, c: char)
    requires b != []
    ensures Extended(a + b, c) == a + Extended(b, c)
  {
  }

  /** A break splits the lines of a text exactly in two. */
  lemma {:induction false} LinesAtBreak(text: string, i: nat)
    requires i < |text| && text[i] == '\n'
    ensures Lines(text) == Lines(text[..i]) + Lines(text[i + 1..])
  {
    var before, after := text[..|text| - 1], text[i + 1..];
    if i == |text| - 1 {
      assert after == [] && before == text[..i];
    } else {
      LinesAtBreak(before, i);
      assert before[..i] == text[..i];
      assert before[i + 1..] == after[..|after| - 1] && after[|after| - 1] == text[|text| - 1];
      ExtendsLast(Lines(text[..i]), Lines(before[i + 1..]), text[|text| - 1]);
    }
  }

  /** A text without breaks is one line. */
  lemma {:induction false} NoBreaks(text: string)
    requires '\n' !in text
    ensures Lines(text) == [text]
  {
    if text != [] {
      var front, c := text[..|text| - 1], text[|text| - 1];
      assert text == front + [c] && c in text;
      NoBreaks(front);
      assert [front][..0] + [front + [c]] == [front + [c]];
    }
  }

  lemma LinesJoin(head: string, rest: string)
    ensures Lines((head + ['\n']) + rest) == Lines(head) + Lines(rest)
  {
    var text := (head + ['\n']) + rest;
    LinesAtBreak(text, |head|);
    assert text[..|head|] == head && text[|head| + 1..] == rest;
  }
}
