/** Choice of the backend base URL from the build mode and the platform. */
module ApiConfig {
  import opened JsString

  /** `Platform.OS`. */
  datatype Platform = Ios | Android | Web | Windows | Macos

  const LocalUrl: string := "http://localhost:5222"
  /** The Android emulator reaches the host machine through this address. */
  const AndroidEmulatorUrl: string := "http://10.0.2.2:5222"
  const ProdApiUrl: string := "https://unichat-api.example.com"

  /** `getApiUrl()`, with `__DEV__` as `dev`. */
  function GetApiUrl(dev: bool, os: Platform): (url: string)
    ensures dev && os == Android ==> url == AndroidEmulatorUrl
    ensures dev && os != Android ==> url == LocalUrl
    ensures !dev ==> url == ProdApiUrl
  {
    if dev then
      if os == Ios then LocalUrl
      else if os == Android then AndroidEmulatorUrl
      else LocalUrl
    else ProdApiUrl
  }

  /** `API_BASE_URL`: the development URL computed at load time, or the production URL. */
  function ApiBaseUrl(dev: bool, os: Platform): (url: string)
    ensures url == GetApiUrl(dev, os)
  {
    var devApiUrl := GetApiUrl(dev, os);
    if dev then devApiUrl else ProdApiUrl
  }

  /** Only a production build talks HTTPS; every development build uses plain HTTP on the
      local backend port. */
  lemma SecureIffProduction(dev: bool, os: Platform)
    ensures StartsWith(ApiBaseUrl(dev, os), "https://") <==> !dev
    ensures dev ==> StartsWith(ApiBaseUrl(dev, os), "http://") && EndsWith(ApiBaseUrl(dev, os), ":5222")
  {
    var url := ApiBaseUrl(dev, os);
    if dev {
      assert url[..8] != "https://" by { assert url[4] == ':'; }
    }
  }
}
