/**
 * The request body of `POST /recommendations` and the prompt the handler
 * builds from it (an f-string that interpolates the six profile fields).
 */
module PromptBuilder {
  import opened Text

  /** `RecommendationInput`: six required free-text fields. */
  datatype Profile = Profile(
    dietaryPreferences: string,
    fitnessGoals: string,
    lifestyleFactors: string,
    dietaryRestrictions: string,
    healthConditions: string,
    specificConcernsOrQuestions: string)

  /** The profile's fields in the order the prompt lists them. */
  function Fields(p: Profile): (fs: seq<string>)
    ensures |fs| == 6
  {
    [p.dietaryPreferences, p.fitnessGoals, p.lifestyleFactors,
     p.dietaryRestrictions, p.healthConditions, p.specificConcernsOrQuestions]
  }

  /** The text that precedes each field in the prompt, in field order. */
  const PreferencesLabel: string := "- Dietary Preferences: "
  const GoalsLabel: string := "\n- Fitness Goals: "
  const LifestyleLabel: string := "\n- Lifestyle Factors: "
  const RestrictionsLabel: string := "\n- Dietary Restrictions: "
  const ConditionsLabel: string := "\n- Health Conditions: "
  const ConcernsLabel: string := "\n- specific_concerns_or_questions: "

  const Labels: seq<string> :=
    [PreferencesLabel, GoalsLabel, LifestyleLabel, RestrictionsLabel, ConditionsLabel, ConcernsLabel]

  const Intro: string :=
    "\nYou are a smart AI named FitGenie.\n\n"
    + "Analyze the following user's profile and return only valid JSON that includes diet and workout plans.\n\n"
    + "User Profile:\n"

  function Quoted(key: string): string {
    "\"" + key + "\""
  }

  /** One line of the sample JSON object the prompt asks the model to fill in. */
  function SchemaLine(key: string, sample: string): string {
    "  " + Quoted(key) + ": " + sample + "\n"
  }

  const ResponseFormat: string :=
    "\n\nReturn a JSON response in exactly this format with no extra explanation or markdown:\n\n{\n"
    + SchemaLine("diet_types", "[\"Type 1\", \"Type 2\", \"Type 3\", \"Type 4\", \"Type 5\"],")
    + SchemaLine("workouts", "[\"Workout 1\", \"Workout 2\", \"Workout 3\", \"Workout 4\", \"Workout 5\"],")
    + SchemaLine("breakfasts", "[\"Breakfast 1\", \"Breakfast 2\", \"Breakfast 3\", \"Breakfast 4\", \"Breakfast 5\"],")
    + SchemaLine("dinners", "[\"Dinner 1\", \"Dinner 2\", \"Dinner 3\", \"Dinner 4\", \"Dinner 5\"],")
    + SchemaLine("additional_tips", "[\"Tip 1\", \"Tip 2\", \"Tip 3\"]")
    + "}\n"

  /** The f-string of the handler, with `{{`/`}}` already turned into braces. */
  function Prompt(p: Profile): (r: string)
    ensures |Intro| + |ResponseFormat| <= |r|
    ensures r[..|Intro|] == Intro && r[|r| - |ResponseFormat|..] == ResponseFormat
  {
    var body := Intro
      + PreferencesLabel + p.dietaryPreferences
      + GoalsLabel + p.fitnessGoals
      + LifestyleLabel + p.lifestyleFactors
      + RestrictionsLabel + p.dietaryRestrictions
      + ConditionsLabel + p.healthConditions
      + ConcernsLabel + p.specificConcernsOrQuestions;
    Framed(body, Intro, ResponseFormat);
    body + ResponseFormat
  }

  lemma Framed(body: string, head: string, tail: string)
    requires |head| <= |body| && body[..|head|] == head
    ensures (body + tail)[..|head|] == head && (body + tail)[|body|..] == tail
  {
    SliceOfLeft(body, tail, 0, |head|);
    assert body[0..|head|] == head;
    SliceOfRight(body, tail, |body|, |body| + |tail|);
  }

  /** Each label followed by its field, in order: the reference shape of the profile block. */
  function Interleave(labels: seq<string>, fields: seq<string>): (r: string)
    requires |labels| == |fields|
    decreases |labels|
  {
    if labels == [] then "" else labels[0] + fields[0] + Interleave(labels[1..], fields[1..])
  }

  /** Where field `k` starts inside `Interleave(labels, fields)`. */
  function FieldOffset(labels: seq<string>, fields: seq<string>, k: nat): (o: nat)
    requires |labels| == |fields| && k < |labels|
    ensures |labels[k]| <= o
    decreases k
  {
    if k == 0 then |labels[0]|
    else |labels[0]| + |fields[0]| + FieldOffset(labels[1..], fields[1..], k - 1)
  }

  /** Field `k` stands verbatim right after its own label. */
  lemma {:induction false} InterleaveFieldAt(labels: seq<string>, fields: seq<string>, k: nat)
    requires |labels| == |fields| && k < |labels|
    ensures var s, o := Interleave(labels, fields), FieldOffset(labels, fields, k);
      && o + |fields[k]| <= |s|
      && s[o - |labels[k]|..o] == labels[k]
      && s[o..o + |fields[k]|] == fields[k]
    decreases k
  {
    var head := labels[0] + fields[0];
    var rest := Interleave(labels[1..], fields[1..]);
    assert Interleave(labels, fields) == head + rest;
    if k == 0 {
      PairAtStart(labels[0], fields[0], rest);
    } else {
      InterleaveFieldAt(labels[1..], fields[1..], k - 1);
      assert labels[1..][k - 1] == labels[k] && fields[1..][k - 1] == fields[k];
      PairShifted(head, rest, labels[k], fields[k], FieldOffset(labels[1..], fields[1..], k - 1));
    }
  }

  lemma PairAtStart(caption: string, field: string, rest: string)
    ensures var s, o := caption + field + rest, |caption|;
      && o + |field| <= |s|
      && s[o - |caption|..o] == caption
      && s[o..o + |field|] == field
  {
    SliceOfLeft(caption + field, rest, 0, |caption|);
    SliceOfLeft(caption, field, 0, |caption|);
    SliceOfLeft(caption + field, rest, |caption|, |caption| + |field|);
    SliceOfRight(caption, field, |caption|, |caption| + |field|);
  }

  lemma PairShifted(head: string, rest: string, caption: string, field: string, o: nat)
    requires |caption| <= o && o + |field| <= |rest|
    requires rest[o - |caption|..o] == caption && rest[o..o + |field|] == field
    ensures var s, o' := head + rest, |head| + o;
      && o' + |field| <= |s|
      && s[o' - |caption|..o'] == caption
      && s[o'..o' + |field|] == field
  {
    SliceOfRight(head, rest, |head| + o - |caption|, |head| + o);
    SliceOfRight(head, rest, |head| + o, |head| + o + |field|);
  }

  /** Consecutive fields follow one another, separated by the next label. */
  lemma {:induction false} FieldOffsetStep(labels: seq<string>, fields: seq<string>, k: nat)
    requires |labels| == |fields| && k + 1 < |labels|
    ensures FieldOffset(labels, fields, k) + |fields[k]| + |labels[k + 1]|
      == FieldOffset(labels, fields, k + 1)
    decreases k
  {
    if k > 0 {
      FieldOffsetStep(labels[1..], fields[1..], k - 1);
    }
  }

  /** The f-string is the intro, the interleaved profile block and the response format. */
  lemma PromptIsInterleaving(p: Profile)
    ensures Prompt(p) == Intro + Interleave(Labels, Fields(p)) + ResponseFormat
  {
    InterleaveSix(PreferencesLabel, GoalsLabel, LifestyleLabel, RestrictionsLabel, ConditionsLabel, ConcernsLabel,
      p.dietaryPreferences, p.fitnessGoals, p.lifestyleFactors,
      p.dietaryRestrictions, p.healthConditions, p.specificConcernsOrQuestions);
    Regroup(Intro, PreferencesLabel, p.dietaryPreferences, GoalsLabel, p.fitnessGoals,
      LifestyleLabel, p.lifestyleFactors, RestrictionsLabel, p.dietaryRestrictions,
      ConditionsLabel, p.healthConditions, ConcernsLabel, p.specificConcernsOrQuestions, ResponseFormat);
  }

  lemma Regroup(head: string, l0: string, f0: string, l1: string, f1: string, l2: string, f2: string,
                l3: string, f3: string, l4: string, f4: string, l5: string, f5: string, tail: string)
    ensures head + l0 + f0 + l1 + f1 + l2 + f2 + l3 + f3 + l4 + f4 + l5 + f5 + tail
      == head + (l0 + f0 + l1 + f1 + l2 + f2 + l3 + f3 + l4 + f4 + l5 + f5) + tail
  {
  }

  lemma InterleaveSix(l0: string, l1: string, l2: string, l3: string, l4: string, l5: string,
                      f0: string, f1: string, f2: string, f3: string, f4: string, f5: string)
    ensures Interleave([l0, l1, l2, l3, l4, l5], [f0, f1, f2, f3, f4, f5])
      == l0 + f0 + l1 + f1 + l2 + f2 + l3 + f3 + l4 + f4 + l5 + f5
  {
    var ls, fs := [l0, l1, l2, l3, l4, l5], [f0, f1, f2, f3, f4, f5];
    assert Interleave(ls[5..], fs[5..]) == l5 + f5;
    assert Interleave(ls[4..], fs[4..]) == l4 + f4 + (l5 + f5) by { assert ls[4..][1..] == ls[5..]; assert fs[4..][1..] == fs[5..]; }
    assert Interleave(ls[3..], fs[3..]) == l3 + f3 + (l4 + f4 + (l5 + f5)) by { assert ls[3..][1..] == ls[4..]; assert fs[3..][1..] == fs[4..]; }
    assert Interleave(ls[2..], fs[2..]) == l2 + f2 + (l3 + f3 + (l4 + f4 + (l5 + f5))) by { assert ls[2..][1..] == ls[3..]; assert fs[2..][1..] == fs[3..]; }
    assert Interleave(ls[1..], fs[1..]) == l1 + f1 + (l2 + f2 + (l3 + f3 + (l4 + f4 + (l5 + f5)))) by { assert ls[1..][1..] == ls[2..]; assert fs[1..][1..] == fs[2..]; }
  }

  /**
   * The prompt contains every profile field verbatim, each right after its
   * label, in the order dietary preferences, fitness goals, lifestyle
   * factors, dietary restrictions, health conditions, specific concerns.
   */
  lemma PromptListsFieldsInOrder(p: Profile, k: nat)
    requires k < 6
    ensures var s, fs, o := Prompt(p), Fields(p), |Intro| + FieldOffset(Labels, Fields(p), k);
      && o + |fs[k]| <= |s|
      && s[o - |Labels[k]|..o] == Labels[k]
      && s[o..o + |fs[k]|] == fs[k]
      && (k < 5 ==> o + |fs[k]| < |Intro| + FieldOffset(Labels, fs, k + 1))
  {
    PromptIsInterleaving(p);
    FieldInFrame(Intro, Labels, Fields(p), ResponseFormat, k);
    if k < 5 {
      FieldOffsetStep(Labels, Fields(p), k);
    }
  }

  lemma FieldInFrame(head: string, labels: seq<string>, fields: seq<string>, tail: string, k: nat)
    requires |labels| == |fields| && k < |labels|
    ensures var s, o := head + Interleave(labels, fields) + tail, |head| + FieldOffset(labels, fields, k);
      && o + |fields[k]| <= |s|
      && s[o - |labels[k]|..o] == labels[k]
      && s[o..o + |fields[k]|] == fields[k]
  {
    var block, o := Interleave(labels, fields), FieldOffset(labels, fields, k);
    InterleaveFieldAt(labels, fields, k);
    SliceOfMiddle(head, block, tail, o - |labels[k]|, o);
    SliceOfMiddle(head, block, tail, o, o + |fields[k]|);
  }
}
