/** What the core and the chrome say to each other, and the pages the core can render. */
module Messages {
  import opened Words

  datatype TorBridge =
    | NoBridge
    | Obfs4(addr: string, cert: string, iatMode: nat)
    | Snowflake(broker: string, relay: string)
    | Meek(url: string)

  datatype V2RayConfig =
    | VMess(uuid: string, alterId: nat, security: string)
    | VLESS(id: string, encryption: string, flow: string)
    | Trojan(password: string)
    | Shadowsocks(method_: string, secret: string)

  datatype Protocol =
    | Clearweb
    | Tor(bridge: TorBridge)
    | I2P
    | V2Ray(config: V2RayConfig)
    | WireGuard(privateKey: string, endpoint: string)

  datatype TabInfo = TabInfo(id: u32, title: string, url: string, active: bool)

  /** Which template the core rendered; the text of the templates is not modelled. */
  datatype Page =
    | Home | Status | Connect | V2RayUnavailable | Settings | Governance | Dapps | Design | Prototype | NetworkMenu
    | Bookmarks | History | Vote(query: string) | SearchResults(query: string) | PtInstall | NotAvailable
    | DownloadError | DownloadComplete(file: string) | Downloads | Security | NotFound | EmptyQuery

  datatype UiEvent =
    | LoadHtml(page: Page)
    | LoadUrl(url: string)
    | NetworkStatusChanged(protocol: Protocol)
    | ConfigurationError(message: string)
    | SetVortex
    | ShieldBlocked(count: nat)
    | SocksReady(port: u16)
    | SetUrlBar(bar: string)
    | PrivacyUpdated(level: string, webrtcBlocked: bool, webglDisabled: bool, sandboxLabel: string)
    | TabsChanged(tabs: seq<TabInfo>)
    | UpdateAvailable(version: string, htmlUrl: string)

  datatype BrowserCommand =
    | Navigate(target: string)
    | Back
    | Forward
    | Refresh
    | ChangeNetwork(to: Protocol)
    | AddBridge(newBridge: TorBridge)
    | AddV2Ray(newConfig: V2RayConfig)
    | NewTab
    | SwitchTab(tab: u32)
    | CloseTab(closing: u32)
    | SetProxyMode(useTor: bool, socksPort: u16)
    | SetPrivacy(privacyLevel: string, blockWebrtc: bool, disableWebgl: bool)
}
