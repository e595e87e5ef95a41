/**
 * The setup form: the host must look like a dotted quad, the device name
 * must not be blank, both problems are reported together, and only an
 * input with neither creates the config entry.
 */
module ConfigFlow {
  import opened PyValue
  import Command

  const ConfHost := "host"
  const ConfDeviceName := "device_name"
  const ConfDeviceType := "device_type"
  const ConfUsername := "username"
  const ConfPassword := "password"

  /** `DEVICE_TYPES`; the form offers the first as its default. */
  const DeviceTypes: seq<string> := ["1_phase", "3_phase"]

  /** The title used when no translation supplies one. */
  const DefaultTitle := "EVSE Energy Star"

  /** The keys the created entry holds, no more and no fewer. */
  const EntryKeys: set<string> := {ConfHost, ConfUsername, ConfPassword, ConfDeviceType, ConfDeviceName}

  // ---------------------------------------------------------------- host

  /** One group of the host pattern: one to three decimal digits. */
  predicate Group(g: string) {
    1 <= |g| <= 3 && AllDigits(g)
  }

  /** Every character is a decimal digit or a dot. */
  predicate DigitsAndDots(s: string) {
    forall i :: 0 <= i < |s| ==> s[i] == '.' || IsDigit(s[i])
  }

  /**
   * A dotted quad: exactly four dot-separated groups of one to three
   * digits, so 7 to 15 characters, each a digit or a dot.
   */
  function HostValid(host: string): (v: bool)
    ensures v ==> 7 <= |host| <= 15 && DigitsAndDots(host)
  {
    var groups := Split(host, '.');
    if |groups| == 4 && forall i :: 0 <= i < 4 ==> Group(groups[i]) then
      QuadShape(host);
      true
    else false
  }

  lemma GlueDigitsAndDots(a: string, b: string)
    requires DigitsAndDots(a) && DigitsAndDots(b)
    ensures DigitsAndDots(a + b)
  {
    forall i | 0 <= i < |a + b| ensures (a + b)[i] == '.' || IsDigit((a + b)[i]) {
      if i >= |a| {
        assert (a + b)[i] == b[i - |a|];
      }
    }
  }

  /** The four groups glued back with dots are the host itself. */
  lemma QuadShape(host: string)
    requires |Split(host, '.')| == 4 && forall i :: 0 <= i < 4 ==> Group(Split(host, '.')[i])
    ensures 7 <= |host| <= 15 && DigitsAndDots(host)
  {
    var g := Split(host, '.');
    JoinSplit(host, '.');
    assert g == [g[0], g[1], g[2], g[3]];
    Command.JoinFour(g[0], g[1], g[2], g[3], '.');
    assert host == g[0] + ['.'] + g[1] + ['.'] + g[2] + ['.'] + g[3];
    assert DigitsAndDots(['.']);
    GlueDigitsAndDots(g[0], ['.']);
    GlueDigitsAndDots(g[0] + ['.'], g[1]);
    GlueDigitsAndDots(g[0] + ['.'] + g[1], ['.']);
    GlueDigitsAndDots(g[0] + ['.'] + g[1] + ['.'], g[2]);
    GlueDigitsAndDots(g[0] + ['.'] + g[1] + ['.'] + g[2], ['.']);
    GlueDigitsAndDots(g[0] + ['.'] + g[1] + ['.'] + g[2] + ['.'], g[3]);
  }

  /** How many digits `s` starts with. */
  function LeadingDigits(s: string): (n: nat)
    ensures n <= |s|
    decreases |s|
  {
    if s != [] && IsDigit(s[0]) then 1 + LeadingDigits(s[1..]) else 0
  }

  /**
   * The regular expression `^\d{1,3}(\.\d{1,3}){3}$` read left to right:
   * a run of one to three digits, then, `more` times, a dot and another such
   * run, then the end. A digit run cannot stop early before a dot, so the
   * greedy reading is the only one.
   */
  predicate MatchesGroups(s: string, more: nat)
    decreases more
  {
    var n := LeadingDigits(s);
    1 <= n <= 3
    && if more == 0 then n == |s|
       else n < |s| && s[n] == '.' && MatchesGroups(s[n + 1..], more - 1)
  }

  predicate HostPattern(host: string) {
    MatchesGroups(host, 3)
  }

  lemma {:induction false} LeadingDigitsOf(g: string, t: string)
    requires AllDigits(g)
    requires t == [] || !IsDigit(t[0])
    ensures LeadingDigits(g + t) == |g|
    decreases |g|
  {
    if g == [] {
      assert g + t == t;
    } else {
      assert (g + t)[1..] == g[1..] + t;
      LeadingDigitsOf(g[1..], t);
    }
  }

  lemma {:induction false} LeadingDigitsAre(s: string)
    ensures AllDigits(s[..LeadingDigits(s)])
    ensures LeadingDigits(s) < |s| ==> !IsDigit(s[LeadingDigits(s)])
    decreases |s|
  {
    if s != [] && IsDigit(s[0]) {
      LeadingDigitsAre(s[1..]);
      var n := LeadingDigits(s[1..]);
      assert s[..n + 1] == [s[0]] + s[1..][..n];
    }
  }

  lemma {:induction false} AllDigitsNoDot(g: string)
    requires AllDigits(g)
    ensures '.' !in g
  {
    assert forall k :: 0 <= k < |g| ==> g[k] != '.';
  }

  /** What the pattern accepts splits into `more + 1` digit groups. */
  lemma {:induction false} MatchedSplits(s: string, more: nat)
    requires MatchesGroups(s, more)
    ensures |Split(s, '.')| == more + 1 && forall i :: 0 <= i <= more ==> Group(Split(s, '.')[i])
    decreases more
  {
    var n := LeadingDigits(s);
    LeadingDigitsAre(s);
    var g := s[..n];
    AllDigitsNoDot(g);
    if more == 0 {
      assert g == s;
      SplitFree(s, '.');
    } else {
      var rest := s[n + 1..];
      assert s == g + ['.'] + rest;
      SplitAppend(g, '.', rest);
      MatchedSplits(rest, more - 1);
      var groups := Split(s, '.');
      assert groups == [g] + Split(rest, '.');
      assert forall i :: 1 <= i <= more ==> groups[i] == Split(rest, '.')[i - 1];
    }
  }

  /** A string that splits into `more + 1` digit groups is matched by the pattern. */
  lemma {:induction false} SplitMatches(s: string, more: nat)
    requires |Split(s, '.')| == more + 1 && forall i :: 0 <= i <= more ==> Group(Split(s, '.')[i])
    ensures MatchesGroups(s, more)
    decreases more
  {
    var groups := Split(s, '.');
    JoinSplit(s, '.');
    if more == 0 {
      assert s == groups[0];
      LeadingDigitsOf(s, []);
      assert s + [] == s;
      assert 1 <= LeadingDigits(s) <= 3 && LeadingDigits(s) == |s|;
    } else {
      var tail := groups[1..];
      var rest := Join(tail, '.');
      assert s == groups[0] + ['.'] + rest;
      assert forall i :: 0 <= i < |tail| ==> '.' !in tail[i];
      SplitJoin(tail, '.');
      forall i | 0 <= i <= more - 1 ensures Group(Split(rest, '.')[i]) {
        assert Split(rest, '.')[i] == groups[i + 1];
      }
      SplitMatches(rest, more - 1);
      MatchesAfterGroup(groups[0], rest, more);
    }
  }

  /** A digit group and a dot in front of a match of `more - 1` further groups match `more`. */
  lemma MatchesAfterGroup(g: string, rest: string, more: nat)
    requires Group(g) && more >= 1 && MatchesGroups(rest, more - 1)
    ensures MatchesGroups(g + ['.'] + rest, more)
  {
    var s := g + ['.'] + rest;
    assert s == g + (['.'] + rest);
    LeadingDigitsOf(g, ['.'] + rest);
    assert s[|g| + 1..] == rest;
  }

  /** The split-based check and the regular expression accept the same hosts. */
  lemma HostValidIsPattern(host: string)
    ensures HostValid(host) <==> HostPattern(host)
  {
    if HostPattern(host) {
      MatchedSplits(host, 3);
    }
    if HostValid(host) {
      SplitMatches(host, 3);
    }
  }

  /** Four digit groups glued with dots are accepted, whatever their values. */
  lemma DottedQuadAccepted(a: string, b: string, c: string, d: string)
    requires Group(a) && Group(b) && Group(c) && Group(d)
    ensures HostValid(a + "." + b + "." + c + "." + d)
  {
    Command.JoinFour(a, b, c, d, '.');
    AllDigitsNoDot(a);
    AllDigitsNoDot(b);
    AllDigitsNoDot(c);
    AllDigitsNoDot(d);
    var groups := [a, b, c, d];
    assert forall i :: 0 <= i < 4 ==> '.' !in groups[i];
    SplitJoin(groups, '.');
  }

  /** There is no 0–255 check: "999.1.1.1" is accepted. */
  lemma OutOfRangeGroupsAccepted()
    ensures HostValid("999.1.1.1")
  {
    DottedQuadAccepted("999", "1", "1", "1");
    assert "999" + "." + "1" + "." + "1" + "." + "1" == "999.1.1.1";
  }

  /** Three or five groups are rejected. */
  lemma WrongGroupCountRejected()
    ensures !HostValid("1.2.3")
    ensures !HostValid("1.2.3.4.5")
  {
    var three := ["1", "2", "3"];
    var five := ["1", "2", "3", "4", "5"];
    assert Join(three, '.') == "1.2.3" by {
      assert three[1..] == ["2", "3"] && three[1..][1..] == ["3"];
    }
    assert Join(five, '.') == "1.2.3.4.5" by {
      assert five[1..] == ["2", "3", "4", "5"] && five[1..][1..] == ["3", "4", "5"];
      assert five[1..][1..][1..] == ["4", "5"] && five[1..][1..][1..][1..] == ["5"];
    }
    SplitJoin(three, '.');
    SplitJoin(five, '.');
  }

  /**
   * What `re.match` accepts: `$` matches at the end of the text and also
   * just before a final newline, so a host followed by one newline passes.
   */
  predicate HostAccepted(host: string) {
    || HostValid(host)
    || (|host| > 0 && host[|host| - 1] == '\n' && HostValid(host[..|host| - 1]))
  }

  /** A valid host with a newline appended is not itself a dotted quad, yet it is accepted. */
  lemma TrailingNewlineAccepted()
    ensures !HostValid("1.2.3.4\n") && HostAccepted("1.2.3.4\n")
  {
    assert !DigitsAndDots("1.2.3.4\n") by {
      assert "1.2.3.4\n"[7] == '\n';
    }
    assert "1.2.3.4\n"[..7] == "1.2.3.4";
    DottedQuadAccepted("1", "2", "3", "4");
    assert "1" + "." + "2" + "." + "3" + "." + "4" == "1.2.3.4";
  }

  // ---------------------------------------------------------- validation

  /**
   * The `errors` dictionary for a submitted form; None when reading the
   * input raises (a device name that is not a string has no `strip`, and
   * a host that is not a string cannot be matched).
   */
  function Errors(input: Dict): (r: Option<map<string, string>>)
    ensures r.Some? <==> GetOr(input, ConfDeviceName, VStr("")).VStr? && Get(input, ConfHost).VStr?
    ensures r.Some? ==>
              r.value.Keys <= {ConfHost, ConfDeviceName}
              && (ConfHost in r.value <==> !HostAccepted(Get(input, ConfHost).s))
              && (ConfDeviceName in r.value <==> Strip(GetOr(input, ConfDeviceName, VStr("")).s) == "")
              && (ConfHost in r.value ==> r.value[ConfHost] == "invalid_ip")
              && (ConfDeviceName in r.value ==> r.value[ConfDeviceName] == "required")
  {
    var name := GetOr(input, ConfDeviceName, VStr(""));
    var host := Get(input, ConfHost);
    if !name.VStr? || !host.VStr? then None
    else
      var hostErrors := if HostAccepted(host.s) then map[] else map[ConfHost := "invalid_ip"];
      Some(if Strip(name.s) == "" then hostErrors[ConfDeviceName := "required"] else hostErrors)
  }

  /** The entry's data: the five keys read from the flow's data; None is the KeyError when one is missing. */
  function EntryData(data: Dict): (r: Option<Dict>)
    ensures r.Some? <==> EntryKeys <= data.Keys
    ensures r.Some? ==> r.value.Keys == EntryKeys && forall k :: k in EntryKeys ==> r.value[k] == data[k]
  {
    if EntryKeys <= data.Keys then
      Some(map[ConfHost := data[ConfHost], ConfUsername := data[ConfUsername],
               ConfPassword := data[ConfPassword], ConfDeviceType := data[ConfDeviceType],
               ConfDeviceName := data[ConfDeviceName]])
    else None
  }

  /** The entry title: the translated title, else "EVSE Energy Star". */
  function Title(translated: Option<string>): (t: string)
    ensures translated.Some? ==> t == translated.value
    ensures translated.None? ==> t == DefaultTitle
  {
    if translated.Some? then translated.value else DefaultTitle
  }

  datatype StepResult =
    | ShowForm(errors: map<string, string>)
    | CreateEntry(title: string, entry: Dict)
    | Raised

  /**
   * `async_step_user` as a function of the flow's data before the step: the
   * result and the data after it. The input is merged into the data before
   * the entry is read, so the merge stays even when the read raises.
   */
  function UserStep(data: Dict, input: Option<Dict>, translated: Option<string>): (r: (StepResult, Dict))
    ensures r.1 == data || (input.Some? && Errors(input.value) == Some(map[]) && r.1 == data + input.value)
    ensures r.0.ShowForm? ==> r.1 == data && (input.Some? ==> r.0.errors != map[])
    ensures r.0.CreateEntry? ==> r.0.entry.Keys == EntryKeys && r.0.title == Title(translated)
    ensures r.0.Raised? ==> input.Some? && (Errors(input.value).None? || !(EntryKeys <= r.1.Keys))
  {
    if input.None? then (ShowForm(map[]), data)
    else match Errors(input.value)
      case None => (Raised, data)
      case Some(errors) =>
        if errors != map[] then (ShowForm(errors), data)
        else
          var merged := data + input.value;
          match EntryData(merged)
          case None => (Raised, merged)
          case Some(entry) => (CreateEntry(Title(translated), entry), merged)
  }

  /** With no input the form is shown without errors, and the data is untouched. */
  lemma NoInputShowsForm(data: Dict, translated: Option<string>)
    ensures UserStep(data, None, translated) == (ShowForm(map[]), data)
  {
  }

  /**
   * An entry is created exactly when the input reads, has no errors and,
   * merged into the data, supplies all five keys.
   */
  lemma EntryIffNoErrors(data: Dict, input: Dict, translated: Option<string>)
    ensures UserStep(data, Some(input), translated).0.CreateEntry?
            <==> Errors(input) == Some(map[]) && EntryKeys <= (data + input).Keys
  {
  }

  /**
   * The created entry holds exactly the five keys; the host and the device
   * name are the submitted ones, the name as typed, before stripping.
   */
  lemma EntryContents(data: Dict, input: Dict, translated: Option<string>)
    requires UserStep(data, Some(input), translated).0.CreateEntry?
    ensures var r := UserStep(data, Some(input), translated).0;
            && r.entry.Keys == EntryKeys
            && r.title == Title(translated)
            && r.entry[ConfHost] == input[ConfHost]
            && r.entry[ConfDeviceName] == input[ConfDeviceName]
            && HostAccepted(input[ConfHost].s)
            && Strip(input[ConfDeviceName].s) != ""
  {
    var errors := Errors(input).value;
    assert ConfHost !in errors && ConfDeviceName !in errors;
    assert ConfDeviceName in (data + input) by {
      assert EntryKeys <= (data + input).Keys;
    }
  }

  /** A bad host and a blank name are reported together, and nothing is created. */
  lemma ErrorsAreIndependent(data: Dict, input: Dict, translated: Option<string>)
    requires Get(input, ConfHost).VStr? && !HostAccepted(Get(input, ConfHost).s)
    requires GetOr(input, ConfDeviceName, VStr("")).VStr? && Strip(GetOr(input, ConfDeviceName, VStr("")).s) == ""
    ensures UserStep(data, Some(input), translated)
            == (ShowForm(map[ConfHost := "invalid_ip", ConfDeviceName := "required"]), data)
  {
    var errors := Errors(input).value;
    assert errors.Keys == {ConfHost, ConfDeviceName};
    assert errors == map[ConfHost := "invalid_ip", ConfDeviceName := "required"];
  }

  /** A missing device name counts as blank. */
  lemma MissingNameRequired(input: Dict)
    requires ConfDeviceName !in input && Get(input, ConfHost).VStr?
    ensures Errors(input).Some? && Errors(input).value[ConfDeviceName] == "required"
  {
    StripIdle("");
  }

  /** A key missing from the input is taken from an earlier submission that was merged in. */
  lemma EarlierDataFillsEntry(data: Dict, input: Dict, translated: Option<string>, k: string)
    requires UserStep(data, Some(input), translated).0.CreateEntry?
    requires k in EntryKeys && k !in input
    ensures UserStep(data, Some(input), translated).0.entry[k] == data[k]
  {
  }

  // ---------------------------------------------------------------- flow

  /** `EVSEEnergyStarConfigFlow`: the data carried between steps. */
  class Flow {
    var data: Dict

    constructor ()
      ensures data == map[]
    {
      data := map[];
    }

    /** `async_step_user`: validate, collect the errors, merge the input, read the entry. */
    method StepUser(userInput: Option<Dict>, translated: Option<string>) returns (r: StepResult)
      modifies this
      ensures (r, data) == UserStep(old(data), userInput, translated)
    {
      var errors: map<string, string> := map[];
      if userInput.Some? {
        var input := userInput.value;
        var host := Get(input, ConfHost);
        var name := GetOr(input, ConfDeviceName, VStr(""));
        if !name.VStr? || !host.VStr? {
          return Raised;
        }
        var deviceName := Strip(name.s);
        if !HostAccepted(host.s) {
          errors := errors[ConfHost := "invalid_ip"];
        }
        if deviceName == "" {
          errors := errors[ConfDeviceName := "required"];
        }
        if errors == map[] {
          data := data + input;
          if !(EntryKeys <= data.Keys) {
            return Raised;
          }
          var entry := map[ConfHost := data[ConfHost], ConfUsername := data[ConfUsername],
                           ConfPassword := data[ConfPassword], ConfDeviceType := data[ConfDeviceType],
                           ConfDeviceName := data[ConfDeviceName]];
          return CreateEntry(Title(translated), entry);
        }
      }
      r := ShowForm(errors);
    }

    /** `async_step_reauth`: the user step again. */
    method StepReauth(userInput: Option<Dict>, translated: Option<string>) returns (r: StepResult)
      modifies this
      ensures (r, data) == UserStep(old(data), userInput, translated)
    {
      r := StepUser(userInput, translated);
    }
  }
}
