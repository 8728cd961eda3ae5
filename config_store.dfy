/** The configuration store (`useConfigStore`): one flat map of settings,
    read through `getConfigInfo` and replaced wholesale by `updateConfigInfo`. */
module Config {

  const StateKey: string := "configInfo"
  const GetterKey: string := "getConfigInfo"
  const ActionKey: string := "updateConfigInfo"

  class ConfigStore {
    var configInfo: map<string, string>

    /** The map starts empty. */
    constructor ()
      ensures configInfo == map[]
    {
      configInfo := map[];
    }

    function GetConfigInfo(): (r: map<string, string>)
      reads this
      ensures r == configInfo
    {
      configInfo
    }

    /** Wholesale replacement: no key of the old map survives unless `newInfo`
        has it too, and a second identical update changes nothing. */
    method UpdateConfigInfo(newInfo: map<string, string>)
      modifies this
      ensures configInfo == newInfo
      ensures forall k :: k in old(configInfo) && k !in newInfo ==> k !in configInfo
    {
      configInfo := newInfo;
    }
  }
}
