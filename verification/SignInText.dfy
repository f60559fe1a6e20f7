/** The text functions behind sign-in identifiers. */
module SignInText {
  import opened AsciiText
  import opened Separators

  /**
   What the routes and the resolver do to text: String.trim and btrim, lower-casing, and the
   removal of separators. The lemmas about accounts hold for any lawful choice of these.
   */
  datatype TextRules = TextRules(
    trim: string -> string, btrim: string -> string, lower: string -> string, strip: string -> string)

  predicate NoSpace(s: string) { forall i :: 0 <= i < |s| ==> !IsSpace(s[i]) }

  /** btrim finds nothing to remove on text that was trimmed, lower-cased after it, or has no white space. */
  ghost predicate Lawful(t: TextRules)
  {
    && (forall s: string :: t.btrim(t.trim(s)) == t.trim(s))
    && (forall s: string :: t.btrim(t.lower(t.trim(s))) == t.lower(t.trim(s)))
    && (forall s: string :: NoSpace(s) ==> t.btrim(s) == s)
    && t.lower("") == "" && t.strip("") == ""
  }

  function Ascii(): TextRules { TextRules(Trim, BTrim, Lower, Strip) }

  lemma AsciiIsLawful()
    ensures Lawful(Ascii())
  {
    hide Trim, BTrim, Lower, Strip;
    var t := Ascii();
    forall s: string
      ensures t.btrim(t.trim(s)) == t.trim(s) && t.btrim(t.lower(t.trim(s))) == t.lower(t.trim(s))
    {
      TrimmedStays(s);
    }
    forall s: string | NoSpace(s) ensures t.btrim(s) == s { SpacelessStays(s); }
    EmptyStays();
  }

  lemma SpacelessStays(s: string)
    requires NoSpace(s)
    ensures BTrim(s) == s
  {}

  lemma EmptyStays()
    ensures Lower("") == "" && Strip("") == ""
  {}
}
