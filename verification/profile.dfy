/** aws/profile.rs: profile names read from the shared config file's `[profile name]` headers, kept in
    file order in a labelled, filterable store. */
module Profile {
  import opened Wrappers
  import opened Query
  import opened Text
  import R = Repository

  /** `ProfileName`: the name of a configured profile. */
  datatype ProfileName = ProfileName(text: string)

  type ProfileStore = R.Repo<ProfileName>

  /** The failure of reading one line of the file. */
  datatype IoError = IoError(message: string)

  /** `ProfileStoreError`. `NoHomeDirectory` comes from the home-directory lookup, which is not part of
      this model. */
  datatype ProfileStoreError = Io(source: IoError) | NoHomeDirectory

  const DEFAULT_LABEL: string := "Profiles"

  const PROFILE_PREFIX: string := "profile "

  function NameOf(p: ProfileName): string {
    p.text
  }

  /** The name inside the brackets, less a leading `profile `. */
  function StripProfile(inner: string): string {
    if StartsWith(inner, PROFILE_PREFIX) then inner[|PROFILE_PREFIX|..] else inner
  }

  /** The header parser of `from_file`: a line whose trimmed text is bracketed names the profile given by
      the trimmed text between the brackets, less a leading `profile `, trimmed again; other lines name
      nothing. */
  function ParseHeader(line: string): Option<ProfileName> {
    var t := Trim(line);
    if StartsWith(t, "[") && EndsWith(t, "]") then
      assert t[..1][0] == '[' && t[|t| - 1..][0] == ']';
      Some(ProfileName(Trim(StripProfile(Trim(t[1..|t| - 1])))))
    else None
  }

  /** Exactly the lines whose trimmed text starts with `[` and ends with `]` are headers. */
  lemma ParseHeaderRecognises(line: string)
    ensures ParseHeader(line).Some? <==> StartsWith(Trim(line), "[") && EndsWith(Trim(line), "]")
  {
  }

  /** Whitespace around the brackets is ignored and the text between them is what gets parsed. */
  lemma ParseHeaderBracketed(a: string, m: string, d: string)
    requires AllWhitespace(a) && AllWhitespace(d)
    ensures ParseHeader(a + "[" + m + "]" + d) == Some(ProfileName(Trim(StripProfile(Trim(m)))))
  {
    var x := "[" + m + "]";
    assert a + "[" + m + "]" + d == a + x + d;
    TrimPadded(a, x, d);
    assert x[1..|x| - 1] == m;
  }

  /** A header written `[name]`, with any whitespace around the brackets and inside them, names `name`. */
  lemma ParseHeaderPlain(a: string, b: string, n: string, c: string, d: string)
    requires AllWhitespace(a) && AllWhitespace(b) && AllWhitespace(c) && AllWhitespace(d)
    requires |n| > 0 ==> !IsWhitespace(n[0]) && !IsWhitespace(n[|n| - 1])
    requires !StartsWith(n, PROFILE_PREFIX)
    ensures ParseHeader(a + "[" + b + n + c + "]" + d) == Some(ProfileName(n))
  {
    var m := b + n + c;
    assert a + "[" + b + n + c + "]" + d == a + "[" + m + "]" + d;
    ParseHeaderBracketed(a, m, d);
    TrimPadded(b, n, c);
    assert StripProfile(n) == n;
    TrimFixed(n);
  }

  /** Between padding, the text after `profile ` is what remains once the prefix is stripped. */
  lemma StripPrefixed(b: string, n: string, c: string)
    requires AllWhitespace(b) && AllWhitespace(c)
    requires |n| > 0 && !IsWhitespace(n[0]) && !IsWhitespace(n[|n| - 1])
    ensures Trim(StripProfile(Trim(b + (PROFILE_PREFIX + n) + c))) == n
  {
    var p := PROFILE_PREFIX + n;
    TrimPadded(b, p, c);
    assert p[..|PROFILE_PREFIX|] == PROFILE_PREFIX;
    assert p[|PROFILE_PREFIX|..] == n;
    TrimFixed(n);
  }

  /** A header written `[profile name]`, with any whitespace around the brackets and inside them, names
      `name`. */
  lemma ParseHeaderProfile(a: string, b: string, n: string, c: string, d: string)
    requires AllWhitespace(a) && AllWhitespace(b) && AllWhitespace(c) && AllWhitespace(d)
    requires |n| > 0 && !IsWhitespace(n[0]) && !IsWhitespace(n[|n| - 1])
    ensures ParseHeader(a + "[" + b + PROFILE_PREFIX + n + c + "]" + d) == Some(ProfileName(n))
  {
    var p := PROFILE_PREFIX + n;
    var m := b + p + c;
    assert a + "[" + b + PROFILE_PREFIX + n + c + "]" + d == a + "[" + m + "]" + d;
    ParseHeaderBracketed(a, m, d);
    StripPrefixed(b, n, c);
  }

  /** `ProfileStore::default`. */
  function Default(): ProfileStore {
    R.Default(DEFAULT_LABEL)
  }

  /** `ProfileStore::insert`. */
  function Insert(s: ProfileStore, p: ProfileName): ProfileStore {
    R.Insert(s, NameOf, p)
  }

  /** `ProfileStore::extend`. */
  function Extend(s: ProfileStore, ps: seq<ProfileName>): ProfileStore {
    R.Extend(s, NameOf, ps)
  }

  /** `ProfileStore::set_query`. */
  function SetQuery(s: ProfileStore, q: Option<Query>): ProfileStore {
    R.SetQuery(s, DEFAULT_LABEL, q)
  }

  /** `ProfileStore::label`. */
  function Label(s: ProfileStore): string {
    R.Label(s)
  }

  /** `ProfileStore::iter`. */
  function Iter(s: ProfileStore): seq<ProfileName> {
    R.Iter(s, NameOf)
  }

  /** `Length for ProfileStore`. */
  function Len(s: ProfileStore): nat {
    R.Len(s, NameOf)
  }

  /** `profile_matches`. */
  predicate ProfileMatches(p: ProfileName, q: Option<Query>) {
    R.Matches(p.text, q)
  }

  /** `ProfileStore::from_file` after the file is opened: lines are read in order, each header inserted as
      it is met, and the first read error ends the whole read with that error. */
  function FromLines(lines: seq<Result<string, IoError>>): Result<ProfileStore, ProfileStoreError> {
    InsertHeaders(Default(), lines)
  }

  function InsertHeaders(s: ProfileStore, lines: seq<Result<string, IoError>>): Result<ProfileStore, ProfileStoreError>
    decreases |lines|
  {
    if |lines| == 0 then Ok(s)
    else
      match lines[0]
      case Err(e) => Err(Io(e))
      case Ok(line) => InsertHeaders(Absorb(s, line), lines[1..])
  }

  /** One line read into the store: a header's name is inserted, any other line is skipped. */
  function Absorb(s: ProfileStore, line: string): ProfileStore {
    match ParseHeader(line)
    case None => s
    case Some(p) => Insert(s, p)
  }

  /** The names one line contributes. */
  function HeaderNames(line: string): seq<ProfileName> {
    match ParseHeader(line)
    case None => []
    case Some(p) => [p]
  }

  /** The profile names the header lines give, in file order. */
  function Headers(lines: seq<string>): seq<ProfileName>
    decreases |lines|
  {
    if |lines| == 0 then []
    else HeaderNames(lines[0]) + Headers(lines[1..])
  }

  /** The first read error, if any. */
  function FirstError(lines: seq<Result<string, IoError>>): Option<IoError>
    decreases |lines|
  {
    if |lines| == 0 then None
    else if lines[0].Err? then Some(lines[0].error)
    else FirstError(lines[1..])
  }

  /** The lines' texts, when all were read. */
  function Texts(lines: seq<Result<string, IoError>>): seq<string>
    requires FirstError(lines).None?
    decreases |lines|
  {
    if |lines| == 0 then [] else [lines[0].value] + Texts(lines[1..])
  }

  /** A read error stops the fold with that error. */
  lemma {:induction false} InsertHeadersError(s: ProfileStore, lines: seq<Result<string, IoError>>)
    requires FirstError(lines).Some?
    ensures InsertHeaders(s, lines) == Err(Io(FirstError(lines).value))
    decreases |lines|
  {
    if lines[0].Ok? {
      InsertHeadersError(Absorb(s, lines[0].value), lines[1..]);
    }
  }

  /** Absorbing a line appends the names it contributes, keeping the numbering, query and label. */
  lemma AbsorbAppends(s: ProfileStore, line: string)
    requires R.WellNumbered(s)
    ensures R.WellNumbered(Absorb(s, line))
    ensures R.Items(Absorb(s, line).entries.items) == R.Items(s.entries.items) + HeaderNames(line)
    ensures Absorb(s, line).query == s.query && Absorb(s, line).labelText == s.labelText
  {
    match ParseHeader(line)
    case None =>
      assert R.Items(s.entries.items) + [] == R.Items(s.entries.items);
    case Some(p) =>
      R.InsertAppends(s, NameOf, p);
  }

  lemma HeadersOfTexts(lines: seq<Result<string, IoError>>)
    requires |lines| > 0 && FirstError(lines).None?
    ensures Headers(Texts(lines)) == HeaderNames(lines[0].value) + Headers(Texts(lines[1..]))
  {
    assert Texts(lines)[1..] == Texts(lines[1..]);
  }

  /** Without read errors the fold appends every header's name, keeping the numbering, query and label. */
  lemma {:induction false} InsertHeadersOk(s: ProfileStore, lines: seq<Result<string, IoError>>)
    requires R.WellNumbered(s)
    requires FirstError(lines).None?
    ensures InsertHeaders(s, lines).Ok?
    ensures R.WellNumbered(InsertHeaders(s, lines).value)
    ensures R.Items(InsertHeaders(s, lines).value.entries.items) == R.Items(s.entries.items) + Headers(Texts(lines))
    ensures InsertHeaders(s, lines).value.query == s.query
    ensures InsertHeaders(s, lines).value.labelText == s.labelText
    decreases |lines|
  {
    if |lines| == 0 {
      assert R.Items(s.entries.items) + [] == R.Items(s.entries.items);
    } else {
      var line := lines[0].value;
      var s' := Absorb(s, line);
      assert InsertHeaders(s, lines) == InsertHeaders(s', lines[1..]);
      AbsorbAppends(s, line);
      InsertHeadersOk(s', lines[1..]);
      HeadersOfTexts(lines);
      assert R.Items(s.entries.items) + HeaderNames(line) + Headers(Texts(lines[1..]))
          == R.Items(s.entries.items) + (HeaderNames(line) + Headers(Texts(lines[1..])));
    }
  }

  /** Reading the file yields the first read error if there is one; otherwise a store with no query and the
      plain label whose `iter` gives every header's name in file order, duplicates included. */
  lemma FromLinesSpec(lines: seq<Result<string, IoError>>)
    ensures FirstError(lines).Some? ==> FromLines(lines) == Err(Io(FirstError(lines).value))
    ensures FirstError(lines).None? ==>
              && FromLines(lines).Ok?
              && Iter(FromLines(lines).value) == Headers(Texts(lines))
              && Label(FromLines(lines).value) == DEFAULT_LABEL
              && Len(FromLines(lines).value) == |Headers(Texts(lines))|
  {
    var d: ProfileStore := Default();
    assert R.Items(d.entries.items) == [];
    if FirstError(lines).None? {
      InsertHeadersOk(d, lines);
      R.IterSpec(FromLines(lines).value, NameOf);
    } else {
      InsertHeadersError(d, lines);
    }
  }

  /** `insert` adds the name at the end of the unfiltered view, even when the name is already present. */
  lemma InsertKeepsDuplicates(s: ProfileStore, p: ProfileName)
    requires R.WellNumbered(s) && s.query.None?
    ensures Iter(Insert(s, p)) == Iter(s) + [p]
    ensures Len(Insert(s, p)) == Len(s) + 1
  {
    R.InsertAppends(s, NameOf, p);
    R.IterSpec(s, NameOf);
    R.IterSpec(Insert(s, p), NameOf);
  }

  /** `extend` adds the names at the end, in their order. */
  lemma ExtendAppendsInOrder(s: ProfileStore, ps: seq<ProfileName>)
    requires R.WellNumbered(s)
    ensures R.WellNumbered(Extend(s, ps))
    ensures R.Items(Extend(s, ps).entries.items) == R.Items(s.entries.items) + ps
    ensures R.Iter(Extend(s, ps), NameOf) == R.Iter(s, NameOf) + R.Filter(ps, NameOf, s.query)
  {
    R.ExtendAppends(s, NameOf, ps);
    R.FilterAppend(R.Items(s.entries.items), ps, NameOf, s.query);
  }

  /** Under a query `iter` yields exactly the names containing its word, and `len` counts them; the label
      shows the word. */
  lemma SetQueryFilters(s: ProfileStore, q: Query)
    ensures forall p :: p in Iter(SetQuery(s, Some(q))) <==> p in R.Items(s.entries.items) && Contains(p.text, q.word)
    ensures Label(SetQuery(s, Some(q))) == "Profiles (\"" + q.word + "\")"
    ensures Label(SetQuery(s, None)) == "Profiles"
    ensures Iter(SetQuery(s, None)) == R.Items(s.entries.items)
  {
    R.IterSpec(SetQuery(s, Some(q)), NameOf);
    R.IterSpec(SetQuery(s, None), NameOf);
  }
}
