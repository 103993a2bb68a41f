/** The form side of the recommendation handler: reading the submitted fields
    with their defaults, rejecting a submission that lacks a required field
    (app.py:40-51) and building the prompt sent upstream (app.py:53-62). */
module Form {
  import opened Wrappers
  import opened Text
  import opened Extractor

  /** `request.form.to_dict()`: field name to submitted text. */
  type FormData = map<string, string>

  /** The nine values the handler reads from the form. */
  datatype Fields = Fields(
    age: string,
    gender: string,
    weight: string,
    height: string,
    vegOrNonveg: string,
    disease: string,
    region: string,
    allergics: string,
    foodtype: string)

  /** The value `region` takes when the form has no such key. */
  const DefaultRegion: string := "Unknown Region"

  /** The reply to a submission that lacks a required field. */
  const MissingFieldsReply: string := "\U{274C} Please fill in all required fields."

  /** `form_data.get(key, default)`. */
  function Get(form: FormData, key: string, default: string): string {
    if key in form then form[key] else default
  }

  /** The nine keys the handler reads, in the order of app.py:40-48. */
  const Keys: seq<string> :=
    ["age", "gender", "weight", "height", "veg_or_nonveg", "disease", "region", "allergics", "foodtype"]

  /** The default of the `i`-th key: `region` has its own, the others are empty. */
  function DefaultOf(i: nat): string
    requires i < |Keys|
  {
    if i == 6 then DefaultRegion else ""
  }

  /** The field that the `i`-th key fills. */
  function FieldAt(f: Fields, i: nat): string
    requires i < |Keys|
  {
    match i
    case 0 => f.age
    case 1 => f.gender
    case 2 => f.weight
    case 3 => f.height
    case 4 => f.vegOrNonveg
    case 5 => f.disease
    case 6 => f.region
    case 7 => f.allergics
    case _ => f.foodtype
  }

  /** The lookups of app.py:40-48: every field is the submitted value of its
      key, or that key's default when the key is absent. */
  function ReadFields(form: FormData): (r: Fields)
    ensures forall i :: 0 <= i < |Keys| && Keys[i] in form ==> FieldAt(r, i) == form[Keys[i]]
    ensures forall i :: 0 <= i < |Keys| && Keys[i] !in form ==> FieldAt(r, i) == DefaultOf(i)
  {
    Fields(
      Get(form, "age", ""),
      Get(form, "gender", ""),
      Get(form, "weight", ""),
      Get(form, "height", ""),
      Get(form, "veg_or_nonveg", ""),
      Get(form, "disease", ""),
      Get(form, "region", DefaultRegion),
      Get(form, "allergics", ""),
      Get(form, "foodtype", ""))
  }

  /** The submission that fills every key with its field. */
  function FormOf(f: Fields): FormData {
    map["age" := f.age, "gender" := f.gender, "weight" := f.weight, "height" := f.height,
        "veg_or_nonveg" := f.vegOrNonveg, "disease" := f.disease, "region" := f.region,
        "allergics" := f.allergics, "foodtype" := f.foodtype]
  }

  /** Reading a complete submission gives back the fields it was made from:
      no two fields share a key and no field is read from the wrong key. */
  lemma ReadFieldsRoundTrip(f: Fields)
    ensures ReadFields(FormOf(f)) == f
  {
  }

  /** Keys outside the nine are ignored. */
  lemma OtherKeysIgnored(form: FormData, key: string, value: string)
    requires key !in Keys
    ensures ReadFields(form[key := value]) == ReadFields(form)
  {
  }

  /** `all([age, gender, weight, height, veg_or_nonveg, region])`: a Python
      string is truthy exactly when it is not empty. */
  predicate HasRequired(f: Fields) {
    f.age != "" && f.gender != "" && f.weight != "" && f.height != ""
    && f.vegOrNonveg != "" && f.region != ""
  }

  /** The fields of an acceptable submission, or nothing when the handler
      answers with `MissingFieldsReply`. */
  function Validate(form: FormData): (r: Option<Fields>)
    ensures r.Some? ==> r.value == ReadFields(form) && HasRequired(r.value)
  {
    var f := ReadFields(form);
    if HasRequired(f) then Some(f) else None
  }

  /** The key is absent from the form or submitted empty. */
  predicate MissingOrEmpty(form: FormData, key: string) {
    key !in form || form[key] == ""
  }

  /** A submission is rejected exactly when one of age, gender, weight, height
      or veg_or_nonveg is absent or empty, or region is submitted empty; an
      absent region is not a reason to reject. */
  lemma RejectedExactly(form: FormData)
    ensures Validate(form).None? <==>
              || MissingOrEmpty(form, "age")
              || MissingOrEmpty(form, "gender")
              || MissingOrEmpty(form, "weight")
              || MissingOrEmpty(form, "height")
              || MissingOrEmpty(form, "veg_or_nonveg")
              || ("region" in form && form["region"] == "")
  {
  }

  /** With the region key left out, the submission carries the default region. */
  lemma AbsentRegionDefaults(form: FormData)
    requires "region" !in form
    requires Validate(form).Some?
    ensures Validate(form).value.region == DefaultRegion
  {
  }

  // ---------------------------------------------------------------------------
  // The prompt

  /** Python's `s or default` on strings: the default replaces an empty string. */
  function OrDefault(s: string, default: string): string {
    if s == "" then default else s
  }

  /** The instruction that opens the prompt, on a line of its own: the role,
      the basis and the request. */
  const Intro: string := IntroRole + IntroBasis + IntroRequest
  const IntroRole: string := "You are a dietician and fitness coach. "
  const IntroBasis: string := "Based on the following data, "
  const IntroRequest: string := "provide strictly formatted recommendations:"

  /** The fixed output-format block that closes the prompt (app.py:57-61).
      Its last line has no newline after it. */
  const FormatBlock: string :=
    "Format:\n"
    + "Restaurants:\n" + "1. ...\n2. ...\n3. ...\n4. ...\n5. ...\n6. ...\n"
    + "Breakfast:\n" + "1. ...\n2. ...\n3. ...\n4. ...\n5. ...\n6. ...\n"
    + "Dinner:\n" + "1. ...\n2. ...\n3. ...\n4. ...\n5. ...\n"
    + "Workouts:\n" + "1. ...\n2. ...\n3. ...\n4. ...\n5. ...\n6. ..."

  /** The prompt of app.py:53-62: the instruction line, the nine data lines,
      a blank line and the format block. `PromptJoin` describes it line by
      line. */
  function BuildPrompt(f: Fields): string {
    Intro + "\n" + DataText(f) + ("\n\n" + FormatBlock)
  }

  /** The nine data lines of the prompt, with no line break after the last.
      An empty disease or allergics shows as `None` and an empty foodtype as
      `Any`. */
  function DataText(f: Fields): string {
    ("Age: " + f.age) + "\n" + ("Gender: " + f.gender) + "\n" + ("Weight: " + f.weight + "kg") + "\n"
    + ("Height: " + f.height + "m") + "\n" + ("Diet: " + f.vegOrNonveg) + "\n"
    + ("Disease: " + OrDefault(f.disease, "None")) + "\n" + ("Region: " + f.region) + "\n"
    + ("Allergics: " + OrDefault(f.allergics, "None")) + "\n" + ("Foodtype: " + OrDefault(f.foodtype, "Any"))
  }

  // ---------------------------------------------------------------------------
  // Reference description of the prompt, line by line

  /** The placeholder lines `1. ...` up to `n. ...`. */
  function Slots(n: nat): (r: seq<string>)
    ensures |r| == n
    ensures forall k :: 0 <= k < n ==> r[k] == Decimal(k + 1) + ". ..."
  {
    if n == 0 then [] else Slots(n - 1) + [Decimal(n) + ". ..."]
  }

  /** A section of the format block: its header line and as many numbered
      placeholders as the result page keeps for it. */
  function SectionLines(s: Section): seq<string> {
    [s.Label() + ":"] + Slots(s.Limit())
  }

  /** The lines of the format block, sections in page order. */
  function FormatLines(): seq<string> {
    ["Format:"] + SectionLines(Restaurants) + SectionLines(Breakfast)
    + SectionLines(Dinner) + SectionLines(Workouts)
  }

  /** The lines describing the submitted data, with the substitutions for
      empty optional fields. */
  function DataLines(f: Fields): seq<string> {
    [ "Age: " + f.age,
      "Gender: " + f.gender,
      "Weight: " + f.weight + "kg",
      "Height: " + f.height + "m",
      "Diet: " + f.vegOrNonveg,
      "Disease: " + OrDefault(f.disease, "None"),
      "Region: " + f.region,
      "Allergics: " + OrDefault(f.allergics, "None"),
      "Foodtype: " + OrDefault(f.foodtype, "Any") ]
  }

  /** No submitted value spans several lines. */
  predicate SingleLineValues(f: Fields) {
    && '\n' !in f.age && '\n' !in f.gender && '\n' !in f.weight && '\n' !in f.height
    && '\n' !in f.vegOrNonveg && '\n' !in f.disease && '\n' !in f.region
    && '\n' !in f.allergics && '\n' !in f.foodtype
  }

  /** Adding a placeholder adds one line to the joined placeholders. */
  lemma JoinSlotsStep(n: nat, joined: string, digits: string)
    requires n >= 1
    requires Join(Slots(n), '\n') == joined
    requires Decimal(n + 1) == digits
    ensures Join(Slots(n + 1), '\n') == joined + "\n" + digits + ". ..."
  {
    JoinAppend(Slots(n), [Decimal(n + 1) + ". ..."], '\n');
  }

  /** The joined placeholders of one entry. */
  lemma JoinedSlots1(n: nat)
    requires n == 1
    ensures Join(Slots(n), '\n') == "1. ..."
  {
    assert Slots(n) == [Decimal(n) + ". ..."];
  }

  lemma JoinedSlots2(n: nat)
    requires n == 2
    ensures Join(Slots(n), '\n') == "1. ...\n2. ..."
  {
    JoinedSlots1(n - 1);
    JoinSlotsStep(n - 1, "1. ...", "2");
  }

  lemma JoinedSlots3(n: nat)
    requires n == 3
    ensures Join(Slots(n), '\n') == "1. ...\n2. ...\n3. ..."
  {
    JoinedSlots2(n - 1);
    JoinSlotsStep(n - 1, "1. ...\n2. ...", "3");
  }

  lemma JoinedSlots4(n: nat)
    requires n == 4
    ensures Join(Slots(n), '\n') == "1. ...\n2. ...\n3. ...\n4. ..."
  {
    JoinedSlots3(n - 1);
    JoinSlotsStep(n - 1, "1. ...\n2. ...\n3. ...", "4");
  }

  lemma JoinedSlots5(n: nat)
    requires n == 5
    ensures Join(Slots(n), '\n') == "1. ...\n2. ...\n3. ...\n4. ...\n5. ..."
  {
    JoinedSlots4(n - 1);
    JoinSlotsStep(n - 1, "1. ...\n2. ...\n3. ...\n4. ...", "5");
  }

  lemma JoinedSlots6(n: nat)
    requires n == 6
    ensures Join(Slots(n), '\n') == "1. ...\n2. ...\n3. ...\n4. ...\n5. ...\n6. ..."
  {
    JoinedSlots5(n - 1);
    JoinSlotsStep(n - 1, "1. ...\n2. ...\n3. ...\n4. ...\n5. ...", "6");
  }

  /** A section's lines, joined, are its header line and its placeholders. */
  lemma JoinedSection(s: Section, slots: string)
    requires Join(Slots(s.Limit()), '\n') == slots
    ensures Join(SectionLines(s), '\n') == s.Label() + ":\n" + slots
  {
    JoinAppend([s.Label() + ":"], Slots(s.Limit()), '\n');
  }

  /** Regrouping the format block around its line breaks: each header piece
      is a label and ":\n", each placeholder piece is placeholders and "\n". */
  lemma RegroupFormat(fmt: string, fmtLine: string, r: string, rHead: string, b: string, bHead: string,
                      d: string, dHead: string, w: string, wHead: string,
                      six: string, sixLines: string, five: string, fiveLines: string)
    requires fmtLine == fmt + "\n"
    requires rHead == r + ":\n" && bHead == b + ":\n" && dHead == d + ":\n" && wHead == w + ":\n"
    requires sixLines == six + "\n" && fiveLines == five + "\n"
    ensures fmtLine + rHead + sixLines + bHead + sixLines + dHead + fiveLines + wHead + six
         == fmt + "\n" + (r + ":\n" + six) + "\n" + (b + ":\n" + six) + "\n" + (d + ":\n" + five) + "\n"
            + (w + ":\n" + six)
  {
  }

  /** The pieces of the format block: labels and placeholders followed by
      their line breaks. */
  lemma FormatPieces(six: string, five: string)
    requires six == "1. ...\n2. ...\n3. ...\n4. ...\n5. ...\n6. ..."
    requires five == "1. ...\n2. ...\n3. ...\n4. ...\n5. ..."
    ensures "1. ...\n2. ...\n3. ...\n4. ...\n5. ...\n6. ...\n" == six + "\n"
    ensures "1. ...\n2. ...\n3. ...\n4. ...\n5. ...\n" == five + "\n"
    ensures "Format:\n" == "Format:" + "\n"
    ensures "Restaurants:\n" == "Restaurants" + ":\n"
    ensures "Breakfast:\n" == "Breakfast" + ":\n"
    ensures "Dinner:\n" == "Dinner" + ":\n"
    ensures "Workouts:\n" == "Workouts" + ":\n"
  {
  }

  /** Joining five non-empty groups of lines joins each group and puts one
      separator between consecutive groups. */
  lemma JoinFive(a: seq<string>, b: seq<string>, c: seq<string>, d: seq<string>, e: seq<string>)
    requires a != [] && b != [] && c != [] && d != [] && e != []
    ensures Join(a + b + c + d + e, '\n')
         == Join(a, '\n') + "\n" + Join(b, '\n') + "\n" + Join(c, '\n') + "\n" + Join(d, '\n') + "\n" + Join(e, '\n')
  {
    JoinAppend(a, b, '\n');
    JoinAppend(a + b, c, '\n');
    JoinAppend(a + b + c, d, '\n');
    JoinAppend(a + b + c + d, e, '\n');
  }

  /** The format block is the reference lines, one per line: a `Format:` line,
      then each section's header followed by one numbered placeholder per
      entry the result page keeps for that section. */
  lemma FormatBlockLines()
    ensures FormatBlock == Join(FormatLines(), '\n')
  {
    var six := "1. ...\n2. ...\n3. ...\n4. ...\n5. ...\n6. ...";
    var five := "1. ...\n2. ...\n3. ...\n4. ...\n5. ...";
    JoinedSlots6(6);
    JoinedSlots5(5);
    JoinedSection(Restaurants, six);
    JoinedSection(Breakfast, six);
    JoinedSection(Dinner, five);
    JoinedSection(Workouts, six);
    assert Join(["Format:"], '\n') == "Format:";
    JoinFive(["Format:"], SectionLines(Restaurants), SectionLines(Breakfast), SectionLines(Dinner), SectionLines(Workouts));
    FormatPieces(six, five);
    RegroupFormat("Format:", "Format:\n", "Restaurants", "Restaurants:\n", "Breakfast", "Breakfast:\n",
                  "Dinner", "Dinner:\n", "Workouts", "Workouts:\n",
                  six, "1. ...\n2. ...\n3. ...\n4. ...\n5. ...\n6. ...\n",
                  five, "1. ...\n2. ...\n3. ...\n4. ...\n5. ...\n");
  }

  /** The prompt's lines: the instruction, the submitted data, a blank line
      and the format block. */
  function PromptLines(f: Fields): seq<string> {
    [Intro] + DataLines(f) + [""] + FormatLines()
  }

  /** Joining the first `k + 1` lines adds the line at `k` after a break. */
  lemma JoinPrefixStep(l: seq<string>, k: nat)
    requires 1 <= k < |l|
    ensures Join(l[..k + 1], '\n') == Join(l[..k], '\n') + "\n" + l[k]
  {
    assert l[..k + 1] == l[..k] + [l[k]];
    JoinAppend(l[..k], [l[k]], '\n');
  }

  /** Nine lines joined are the lines with a break after each but the last. */
  lemma JoinNine(l: seq<string>)
    requires |l| == 9
    ensures Join(l, '\n')
         == l[0] + "\n" + l[1] + "\n" + l[2] + "\n" + l[3] + "\n" + l[4] + "\n" + l[5] + "\n" + l[6] + "\n" + l[7] + "\n" + l[8]
  {
    assert Join(l[..1], '\n') == l[0];
    JoinPrefixStep(l, 1);
    JoinPrefixStep(l, 2);
    JoinPrefixStep(l, 3);
    JoinPrefixStep(l, 4);
    JoinPrefixStep(l, 5);
    JoinPrefixStep(l, 6);
    JoinPrefixStep(l, 7);
    JoinPrefixStep(l, 8);
    assert l[..9] == l;
  }

  /** The data lines, joined, are the data text of the prompt. */
  lemma DataJoin(f: Fields)
    ensures Join(DataLines(f), '\n') == DataText(f)
  {
    JoinNine(DataLines(f));
  }

  /** A blank line before the format block. */
  lemma BlankThenFormat()
    ensures Join([""] + FormatLines(), '\n') == "\n" + FormatBlock
  {
    JoinAppend([""], FormatLines(), '\n');
    FormatBlockLines();
  }

  /** The prompt is its reference lines joined by line breaks. */
  lemma PromptJoin(f: Fields)
    ensures BuildPrompt(f) == Join(PromptLines(f), '\n')
  {
    var b := DataLines(f);
    var c := [""] + FormatLines();
    assert PromptLines(f) == [Intro] + (b + c);
    JoinFrame(Intro, b, c);
    DataJoin(f);
    BlankThenFormat();
    TwoBreaks(FormatBlock);
  }

  /** A first line, then two runs of lines, joined. */
  lemma JoinFrame(x: string, b: seq<string>, c: seq<string>)
    requires b != [] && c != []
    ensures Join([x] + (b + c), '\n') == x + "\n" + Join(b, '\n') + ("\n" + Join(c, '\n'))
  {
    JoinAppend(b, c, '\n');
    JoinAppend([x], b + c, '\n');
    assert Join([x], '\n') == x;
  }

  lemma TwoBreaks(s: string)
    ensures "\n" + ("\n" + s) == "\n\n" + s
  {
  }

  /** No line of the list holds a line break. */
  predicate SingleLines(l: seq<string>) {
    forall i :: 0 <= i < |l| ==> '\n' !in l[i]
  }

  lemma SingleLinesAppend(a: seq<string>, b: seq<string>)
    requires SingleLines(a) && SingleLines(b)
    ensures SingleLines(a + b)
  {
    forall i | 0 <= i < |a + b|
      ensures '\n' !in (a + b)[i]
    {
      if i >= |a| {
        assert (a + b)[i] == b[i - |a|];
      }
    }
  }

  /** No reference line of the format block holds a line break. */
  lemma FormatLinesAreSingle()
    ensures SingleLines(FormatLines())
  {
    forall s: Section, k | 0 <= k < s.Limit()
      ensures '\n' !in Slots(s.Limit())[k]
    {
      var d := Decimal(k + 1);
      assert Slots(s.Limit())[k] == d + ". ...";
      assert forall m :: 0 <= m < |d| ==> d[m] != '\n';
    }
    forall s: Section
      ensures SingleLines(SectionLines(s))
    {
      forall i | 0 <= i < |SectionLines(s)|
        ensures '\n' !in SectionLines(s)[i]
      {
        if i > 0 {
          assert SectionLines(s)[i] == Slots(s.Limit())[i - 1];
        }
      }
    }
    var head := ["Format:"];
    SingleLinesAppend(head, SectionLines(Restaurants));
    SingleLinesAppend(head + SectionLines(Restaurants), SectionLines(Breakfast));
    SingleLinesAppend(head + SectionLines(Restaurants) + SectionLines(Breakfast), SectionLines(Dinner));
    SingleLinesAppend(head + SectionLines(Restaurants) + SectionLines(Breakfast) + SectionLines(Dinner),
                      SectionLines(Workouts));
  }

  /** The instruction line holds no line break. */
  lemma IntroIsSingle()
    ensures SingleLines([Intro])
  {
    IntroRoleIsSingle();
    IntroBasisIsSingle();
    IntroRequestIsSingle();
  }

  lemma IntroRoleIsSingle()
    ensures '\n' !in IntroRole
  {
    assert forall k :: 0 <= k < |IntroRole| ==> IntroRole[k] != '\n';
  }

  lemma IntroBasisIsSingle()
    ensures '\n' !in IntroBasis
  {
    assert forall k :: 0 <= k < |IntroBasis| ==> IntroBasis[k] != '\n';
  }

  lemma IntroRequestIsSingle()
    ensures '\n' !in IntroRequest
  {
    assert forall k :: 0 <= k < |IntroRequest| ==> IntroRequest[k] != '\n';
  }

  /** The data lines hold no line break when the submitted values hold none. */
  lemma DataLinesAreSingle(f: Fields)
    requires SingleLineValues(f)
    ensures SingleLines(DataLines(f))
  {
  }

  /** Splitting the prompt at its line breaks gives back the reference lines,
      provided no submitted value holds a line break of its own. */
  lemma PromptSplitsIntoLines(f: Fields)
    requires SingleLineValues(f)
    ensures Split(BuildPrompt(f), '\n') == PromptLines(f)
  {
    PromptJoin(f);
    IntroIsSingle();
    DataLinesAreSingle(f);
    FormatLinesAreSingle();
    SingleLinesAppend([Intro], DataLines(f));
    SingleLinesAppend([Intro] + DataLines(f), [""]);
    SingleLinesAppend([Intro] + DataLines(f) + [""], FormatLines());
    SplitJoin(PromptLines(f), '\n');
  }

  /** Where each section's header sits among the format block's lines. */
  function HeaderLine(s: Section): nat {
    match s
    case Restaurants => 1
    case Breakfast => 8
    case Dinner => 15
    case Workouts => 21
  }

  /** Where the placeholder `k + 1. ...` of a section sits. */
  function SlotLine(s: Section, k: nat): nat {
    HeaderLine(s) + 1 + k
  }

  /** The format block's lines: `Format:`, then the four headers in page order,
      each followed by exactly its section's number of placeholders, 6, 6, 5
      and 6, numbered from 1. */
  lemma FormatLayout()
    ensures |FormatLines()| == 28 && FormatLines()[0] == "Format:"
    ensures forall s: Section :: FormatLines()[HeaderLine(s)] == s.Label() + ":"
    ensures forall s: Section, k :: 0 <= k < s.Limit() ==>
              SlotLine(s, k) < 28 && FormatLines()[SlotLine(s, k)] == Decimal(k + 1) + ". ..."
    ensures HeaderLine(Breakfast) == HeaderLine(Restaurants) + 1 + Restaurants.Limit()
    ensures HeaderLine(Dinner) == HeaderLine(Breakfast) + 1 + Breakfast.Limit()
    ensures HeaderLine(Workouts) == HeaderLine(Dinner) + 1 + Dinner.Limit()
    ensures |FormatLines()| == HeaderLine(Workouts) + 1 + Workouts.Limit()
  {
  }

  /** The prompt's lines, for a submission without embedded line breaks: the
      instruction, the nine data lines, one blank line, and the format block. */
  lemma PromptLayout(f: Fields)
    requires SingleLineValues(f)
    ensures var lines := Split(BuildPrompt(f), '\n');
            && |lines| == 39 && lines[0] == Intro && lines[10] == ""
            && lines[1..10] == DataLines(f) && lines[11..] == FormatLines()
  {
    PromptSplitsIntoLines(f);
    FormatLayout();
  }

  /** Python's `s or default` in the prompt: empty disease, allergics and
      foodtype show as `None`, `None` and `Any`, whatever the other values hold. */
  lemma EmptyOptionalsShowDefaults(f: Fields)
    requires f.disease == "" && f.allergics == "" && f.foodtype == ""
    ensures BuildPrompt(f) == Join(PromptLines(f), '\n')
    ensures PromptLines(f)[6] == "Disease: None"
    ensures PromptLines(f)[8] == "Allergics: None"
    ensures PromptLines(f)[9] == "Foodtype: Any"
  {
    PromptJoin(f);
    DefaultLines(f.disease, f.allergics, f.foodtype);
  }

  lemma DefaultLines(disease: string, allergics: string, foodtype: string)
    requires disease == "" && allergics == "" && foodtype == ""
    ensures "Disease: " + OrDefault(disease, "None") == "Disease: None"
    ensures "Allergics: " + OrDefault(allergics, "None") == "Allergics: None"
    ensures "Foodtype: " + OrDefault(foodtype, "Any") == "Foodtype: Any"
  {
  }
}
