/**
 * The branch selector of the application form, without its DOM and
 * widget wiring: loading the option list (server records, or a built-in
 * fallback list when the request fails), mirroring the selected branch's
 * code into a hidden field, and building the query parameters handed to
 * the application page on submit.
 */
module BranchSelect {
  import opened Wrappers
  import BranchService

  /** One option of the branch selector. */
  datatype BranchOption = BranchOption(
    value: string,
    text: string,
    code: string,
    province: Option<string>,
    region: Option<string>,
    district: Option<string>,
    coordinates: Option<string>,
    status: Option<string>)

  /**
   * What the request for the branch list produced: `Failed` when the
   * request or the JSON decoding threw, otherwise the truthiness of the
   * decoded `success` field and `data` (`None` when `data` is not an array, so mapping over
   * it throws).
   */
  datatype FetchOutcome =
    | Failed
    | Response(success: bool, data: Option<seq<BranchService.Record>>)

  /** The page the submit handler navigates to, up to its query string. */
  const NextPage: string := "applicationform.html?"

  function FallbackOption(value: string, text: string, code: string): BranchOption {
    BranchOption(value, text, code, None, None, None, None, None)
  }

  /** The options used when the branch list cannot be loaded. */
  const ClientFallback: seq<BranchOption> := [
    FallbackOption("bkk-silom", "กรุงเทพฯ - สีลม", "BKK01"),
    FallbackOption("bkk-sukhumvit", "กรุงเทพฯ - สุขุมวิท", "BKK02"),
    FallbackOption("bkk-ratchada", "กรุงเทพฯ - รัชดา", "BKK03"),
    FallbackOption("chiangmai", "เชียงใหม่", "CNX01"),
    FallbackOption("phuket", "ภูเก็ต", "PKT01"),
    FallbackOption("chonburi", "ชลบุรี", "CHB01"),
    FallbackOption("khonkaen", "ขอนแก่น", "KHN01"),
    FallbackOption("songkhla", "สงขลา", "SKA01"),
    FallbackOption("nakhonratchasima", "นครราชสีมา", "NMA01")
  ]

  function ToOption(branch: BranchService.Record): BranchOption {
    BranchOption(branch.code, branch.text, branch.code, branch.province, branch.region,
                 branch.district, branch.coordinates, branch.branchStatus)
  }

  /**
   * `result.data.map(...)`: one option per record, in order, whose value
   * and code are both the record's code.
   */
  function ToOptions(data: seq<BranchService.Record>): (options: seq<BranchOption>)
    ensures |options| == |data|
    ensures forall i :: 0 <= i < |data| ==>
              && options[i].value == data[i].code
              && options[i].code == data[i].code
              && options[i].text == data[i].text
              && options[i].status == data[i].branchStatus
              && options[i].province == data[i].province
              && options[i].region == data[i].region
              && options[i].district == data[i].district
              && options[i].coordinates == data[i].coordinates
  {
    if data == [] then [] else [ToOption(data[0])] + ToOptions(data[1..])
  }

  /**
   * `fetchBranches`: the server's records when the response says
   * `success` and carries an array, the built-in fallback list otherwise.
   * A successful response with an empty array gives no options at all.
   */
  function FetchBranches(outcome: FetchOutcome): (options: seq<BranchOption>)
    ensures outcome.Response? && outcome.success && outcome.data.Some? ==>
              |options| == |outcome.data.value|
              && forall i :: 0 <= i < |options| ==>
                   options[i].value == options[i].code == outcome.data.value[i].code
                   && options[i].text == outcome.data.value[i].text
                   && options[i].status == outcome.data.value[i].branchStatus
    ensures outcome.Response? && outcome.success && outcome.data.Some? ==>
              options == ToOptions(outcome.data.value)
    ensures !(outcome.Response? && outcome.success && outcome.data.Some?) ==> options == ClientFallback
  {
    match outcome
    case Response(true, Some(data)) => ToOptions(data)
    case _ => ClientFallback
  }

  /** No two options share a value. */
  predicate DistinctValues(options: seq<BranchOption>) {
    forall i, j :: 0 <= i < j < |options| ==> options[i].value != options[j].value
  }

  /** `options.find(opt => opt.value === selected)`: the first option with that value. */
  function Find(options: seq<BranchOption>, selected: string): (found: Option<BranchOption>)
    ensures found.Some? ==> found.value in options && found.value.value == selected
    ensures found.None? <==> forall i :: 0 <= i < |options| ==> options[i].value != selected
  {
    if options == [] then None
    else if options[0].value == selected then Some(options[0])
    else Find(options[1..], selected)
  }

  /** What the change handler writes into the hidden branch-code field. */
  function CodeFor(options: seq<BranchOption>, selected: string): (code: string)
    ensures (forall i :: 0 <= i < |options| ==> options[i].value != selected) ==> code == ""
  {
    match Find(options, selected)
    case Some(option) => option.code
    case None => ""
  }

  /**
   * The parameters of the submit handler, in order: the selected value,
   * and the code and text of the matching option (empty when none matches).
   */
  function SubmitParams(options: seq<BranchOption>, selected: string): (params: seq<(string, string)>)
    ensures |params| == 3
    ensures params[0] == ("branch", selected)
    ensures params[1].0 == "code" && params[2].0 == "text"
    ensures params[1].1 == CodeFor(options, selected)
    ensures Find(options, selected).None? ==> params[1].1 == "" && params[2].1 == ""
    ensures Find(options, selected).Some? ==> params[2].1 == Find(options, selected).value.text
  {
    var selectedOption := Find(options, selected);
    var code := if selectedOption.Some? then selectedOption.value.code else "";
    var text := if selectedOption.Some? then selectedOption.value.text else "";
    [("branch", selected), ("code", code), ("text", text)]
  }

  /**
   * The page-level state of the selector: the loaded options, the hidden
   * branch-code field and the browser's location.
   */
  class BranchController {
    var options: seq<BranchOption>
    var hiddenCode: string
    var location: string

    /** Page load: the options come from `fetchBranches`; the fields keep what the page had. */
    constructor (outcome: FetchOutcome, initialCode: string, initialLocation: string)
      ensures options == FetchBranches(outcome)
      ensures hiddenCode == initialCode && location == initialLocation
    {
      options := FetchBranches(outcome);
      hiddenCode := initialCode;
      location := initialLocation;
    }

    /** The `change` handler: mirror the selected option's code, or clear the field. */
    method OnChange(selected: string)
      modifies this`hiddenCode
      ensures hiddenCode == CodeFor(options, selected)
      ensures options == old(options) && location == old(location)
    {
      var selectedOption := Find(options, selected);
      hiddenCode := if selectedOption.Some? then selectedOption.value.code else "";
    }

    /**
     * The `submit` handler: navigate to the application page with the
     * serialised parameters. `serialize` stands for `URLSearchParams`'
     * `toString`, which is not modelled.
     */
    method OnSubmit(selected: string, serialize: seq<(string, string)> -> string)
      modifies this`location
      ensures location == NextPage + serialize(SubmitParams(options, selected))
      ensures options == old(options) && hiddenCode == old(hiddenCode)
    {
      var selectedOption := Find(options, selected);
      var code := if selectedOption.Some? then selectedOption.value.code else "";
      var text := if selectedOption.Some? then selectedOption.value.text else "";
      var params := [("branch", selected), ("code", code), ("text", text)];
      location := NextPage + serialize(params);
    }
  }

  // ---------------------------------------------------------------------
  // Properties

  /** `Find` returns the first option carrying the selected value. */
  lemma {:induction false} FindFirst(options: seq<BranchOption>, selected: string, i: nat)
    requires i < |options| && options[i].value == selected
    requires forall j :: 0 <= j < i ==> options[j].value != selected
    ensures Find(options, selected) == Some(options[i])
  {
    if i > 0 {
      FindFirst(options[1..], selected, i - 1);
    }
  }

  /** With distinct values, selecting an option mirrors exactly that option's code. */
  lemma LookupCorrect(options: seq<BranchOption>, i: nat)
    requires DistinctValues(options) && i < |options|
    ensures CodeFor(options, options[i].value) == options[i].code
    ensures SubmitParams(options, options[i].value) ==
              [("branch", options[i].value), ("code", options[i].code), ("text", options[i].text)]
  {
    FindFirst(options, options[i].value, i);
  }

  /** A value no option carries clears the hidden field, and submit sends empty code and text. */
  lemma UnknownValue(options: seq<BranchOption>, selected: string)
    requires forall i :: 0 <= i < |options| ==> options[i].value != selected
    ensures CodeFor(options, selected) == ""
    ensures SubmitParams(options, selected) == [("branch", selected), ("code", ""), ("text", "")]
  {
  }

  /**
   * On the server path value and code coincide, so selecting any loaded
   * value mirrors that same value, whether or not the values are distinct.
   */
  lemma ServerPathCodeIsValue(data: seq<BranchService.Record>, selected: string)
    requires exists i :: 0 <= i < |data| && data[i].code == selected
    ensures CodeFor(FetchBranches(Response(true, Some(data))), selected) == selected
  {
    var options := FetchBranches(Response(true, Some(data)));
    var i :| 0 <= i < |data| && data[i].code == selected;
    assert options[i].value == selected;
    var found := Find(options, selected);
    assert found.Some?;
    var k :| 0 <= k < |options| && options[k] == found.value;
  }

  /** The fallback values are pairwise distinct, and so are its codes. */
  lemma FallbackDistinct()
    ensures DistinctValues(ClientFallback)
    ensures forall i, j :: 0 <= i < j < |ClientFallback| ==> ClientFallback[i].code != ClientFallback[j].code
  {
  }

  /** Every fallback code is five characters long and no fallback value is. */
  lemma FallbackCodeLengths()
    ensures forall i :: 0 <= i < |ClientFallback| ==>
              |ClientFallback[i].code| == 5 && |ClientFallback[i].value| != 5
  {
  }

  /**
   * After a client-side fallback the hidden code is the branch code
   * (`BKK01`), not the selected slug (`bkk-silom`).
   */
  lemma FallbackCodeDiffersFromValue(i: nat)
    requires i < |ClientFallback|
    ensures CodeFor(FetchBranches(Failed), ClientFallback[i].value) == ClientFallback[i].code
    ensures ClientFallback[i].code != ClientFallback[i].value
  {
    FallbackDistinct();
    LookupCorrect(ClientFallback, i);
    FallbackCodeLengths();
  }

  /** Every failure of the request loads exactly the built-in fallback list. */
  lemma FailureLoadsFallback(outcome: FetchOutcome)
    requires outcome.Failed? || !outcome.success || outcome.data.None?
    ensures FetchBranches(outcome) == ClientFallback && |FetchBranches(outcome)| == 9
  {
  }

  /** A successful response with no records loads no options: the list is not guaranteed non-empty. */
  lemma EmptySuccessLoadsNothing()
    ensures FetchBranches(Response(true, Some([]))) == []
  {
  }

  /** The server's mock list and the client's fallback list agree on text and code, entry for entry. */
  lemma FallbackParity()
    ensures |BranchService.MockBranches| == |ClientFallback|
    ensures forall i :: 0 <= i < |ClientFallback| ==>
              BranchService.MockBranches[i].text == ClientFallback[i].text
              && BranchService.MockBranches[i].code == ClientFallback[i].code
    ensures forall i :: 0 <= i < |ClientFallback| ==>
              BranchService.MockBranches[i].value == Some(ClientFallback[i].value)
  {
  }

  /**
   * End to end, query rows to submit: each option's value and code are
   * the row's `branch_code`, its text is `branchname_th`; at most ten
   * options load; with distinct codes, selecting row i submits its code
   * and name.
   */
  lemma {:induction false} RowsToSubmit(rows: seq<BranchService.Row>, i: nat)
    requires |rows| <= BranchService.QueryLimit && i < |rows|
    requires forall j, k :: 0 <= j < k < |rows| ==> rows[j].branchCode != rows[k].branchCode
    ensures var options := FetchBranches(Response(true, Some(BranchService.GetBranches(BranchService.Rows(rows)).data)));
            && |options| == |rows|
            && options[i].value == options[i].code == rows[i].branchCode
            && options[i].text == rows[i].branchNameTh
            && CodeFor(options, rows[i].branchCode) == rows[i].branchCode
            && SubmitParams(options, rows[i].branchCode) ==
                 [("branch", rows[i].branchCode), ("code", rows[i].branchCode), ("text", rows[i].branchNameTh)]
  {
    var options := FetchBranches(Response(true, Some(BranchService.GetBranches(BranchService.Rows(rows)).data)));
    assert DistinctValues(options) by {
      forall j, k | 0 <= j < k < |options| ensures options[j].value != options[k].value {
        assert options[j].value == rows[j].branchCode && options[k].value == rows[k].branchCode;
      }
    }
    LookupCorrect(options, i);
  }

  /**
   * When the query fails, the server's mock list reaches the client as
   * live data: the same texts and codes as the client fallback, but with
   * the codes as option values instead of the slugs.
   */
  lemma MockReachesClient()
    ensures var options := FetchBranches(Response(true, Some(BranchService.GetBranches(BranchService.QueryFailed).data)));
            && |options| == |ClientFallback|
            && forall i :: 0 <= i < |options| ==>
                 && options[i].text == ClientFallback[i].text
                 && options[i].code == ClientFallback[i].code
                 && options[i].value == ClientFallback[i].code != ClientFallback[i].value
  {
    FallbackParity();
    forall i | 0 <= i < |ClientFallback| ensures ClientFallback[i].code != ClientFallback[i].value {
      FallbackCodeDiffersFromValue(i);
    }
  }
}
