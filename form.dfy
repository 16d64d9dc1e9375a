/** The input checks App.calculate makes before it starts a calculation. */
module Form {
  import opened Wrappers
  import opened Records

  const NeedApiKey := "Please enter your Google Maps API key"
  const NeedAddress := "Please enter an origin address"
  const NeedData := "Please load data first"

  /**
   * The status message that stops the calculation, or None when it may start.
   * The checks run in order (API key, address, loaded data) and the first that
   * fails decides the message. `zipData` is None until the data is loaded.
   */
  function ValidateInputs(apiKey: string, address: string, zipData: Option<seq<AreaRecord>>)
    : (r: Option<string>)
    ensures r.None? <==> apiKey != "" && address != "" && zipData.Some?
    ensures apiKey == "" ==> r == Some(NeedApiKey)
    ensures apiKey != "" && address == "" ==> r == Some(NeedAddress)
    ensures apiKey != "" && address != "" && zipData.None? ==> r == Some(NeedData)
  {
    if apiKey == "" then Some(NeedApiKey)
    else if address == "" then Some(NeedAddress)
    else if zipData.None? then Some(NeedData)
    else None
  }
}
