/**
 * The string helpers on the inputs the unit tests of utilities.ts use
 * (test/unit/scripts/utilities.test.ts). The intermediate steps take the
 * string as a parameter, so that the solver reasons about its characters
 * rather than evaluating the recursive helpers on a literal.
 */
module UtilitiesCases {
  import opened Text
  import opened Utilities

  lemma CapitalizeFirstLetterExample()
    ensures CapitalizeFirstLetter("helloWorld") == "HelloWorld"
  {
  }

  /** kebabize("helloWorld") is "hello-world": the dash first, then the lower-casing. */
  lemma KebabizeExample()
    ensures Kebabize("helloWorld") == "hello-world"
  {
    InsertDashesExample("helloWorld");
    LowerExample("hello-World");
  }

  /** The one lower/upper pair of "helloWorld" is "oW". */
  lemma InsertDashesExample(s: string)
    requires |s| == 10 && s[0] == 'h' && s[1] == 'e' && s[2] == 'l' && s[3] == 'l' && s[4] == 'o'
    requires s[5] == 'W' && s[6] == 'o' && s[7] == 'r' && s[8] == 'l' && s[9] == 'd'
    ensures InsertDashes(s) == "hello-World"
  {
    assert InsertDashes(s) == [s[0]] + InsertDashes(s[1..]);
    assert InsertDashes(s[1..]) == [s[1]] + InsertDashes(s[2..]);
    assert InsertDashes(s[2..]) == [s[2]] + InsertDashes(s[3..]);
    assert InsertDashes(s[3..]) == [s[3]] + InsertDashes(s[4..]);
    assert InsertDashes(s[4..]) == [s[4], '-', s[5]] + InsertDashes(s[6..]);
    assert InsertDashes(s[6..]) == [s[6]] + InsertDashes(s[7..]);
    assert InsertDashes(s[7..]) == [s[7]] + InsertDashes(s[8..]);
    assert InsertDashes(s[8..]) == s[8..];
  }

  /** Only the 'W' at index 6 of "hello-World" is upper-case. */
  lemma LowerExample(s: string)
    requires s == "hello-World"
    ensures Lower(s) == "hello-world"
  {
    assert s[6] == 'W';
    forall i | 0 <= i < |s| && i != 6
      ensures !IsUpper(s[i])
    {
    }
  }

  /** titleCase("hello world") is "Hello World": each word's first letter, and only it, upper-cased. */
  lemma TitleCaseExample(s: string)
    requires s == "hello world"
    ensures CapitalizeAfterSpaces(Lower(s), true) == "Hello World"
  {
    TitleCasePointwise(s);
    var r := CapitalizeAfterSpaces(Lower(s), true);
    assert r[0] == 'H';
    assert r[1] == 'e';
    assert r[2] == 'l';
    assert r[3] == 'l';
    assert r[4] == 'o';
    assert r[5] == ' ';
    assert r[6] == 'W';
    assert r[7] == 'o';
    assert r[8] == 'r';
    assert r[9] == 'l';
    assert r[10] == 'd';
  }
}
