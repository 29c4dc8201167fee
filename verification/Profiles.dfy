// internal/config and internal/api: profiles, what a save turns a request into, and the endpoint that
// internal/transport dials for it.
module Profiles {
  import opened Basics

  datatype SSH = SSH(host: string, port: int, username: string, password: string, authType: string)

  datatype HTTPProxy = HTTPProxy(host: string, port: int, connectMethod: string)

  datatype TLS = TLS(enabled: bool, serverName: string, insecureSkipVerify: bool, alpn: seq<string>)

  datatype Payload = Payload(
    enabled: bool, template: string, sendTiming: string, readResponse: bool, allowStatuses: seq<int>)

  datatype Mode = Direct | HttpProxy | TlsSni | HttpProxyTlsSni

  // The layers of a connection, in the order in which they are set up.
  datatype Layer = Tcp | Proxy | Tls | Injection | Ssh

  datatype Transport = Transport(
    mode: Mode, chain: seq<Layer>, httpProxy: Option<HTTPProxy>, tls: Option<TLS>, payload: Payload)

  datatype Profile = Profile(id: string, name: string, selected: bool, ssh: SSH, transport: Transport)

  // The body of a save; its mode may be any alias.
  datatype Request = Request(
    id: string, name: string, select: bool, ssh: SSH, mode: string,
    httpProxy: Option<HTTPProxy>, tls: Option<TLS>, payload: Payload)

  // --- Transports --------------------------------------------------------------------------------------

  function NormalizeMode(mode: string): Option<Mode> {
    var t := TrimSpace(ToLower(mode));
    if t in {"direct", "ssh", "ssh_payload", "ssh+pl"} then Some(Direct)
    else if t in {"http_proxy", "ssh_http_proxy", "ssh+http", "ssh+http_proxy", "ssh+pl+http"} then Some(HttpProxy)
    else if t in {"tls_sni", "sni", "ssh+sni", "ssh+pl+sni"} then Some(TlsSni)
    else if t in {"http_proxy_tls_sni", "http_tls", "ssh+http+sni", "ssh+pl+http+sni"} then Some(HttpProxyTlsSni)
    else None
  }

  predicate UsesHTTPProxy(t: Transport) {
    t.mode.HttpProxy? || t.mode.HttpProxyTlsSni? || Proxy in t.chain
  }

  predicate UsesTLS(t: Transport) {
    t.mode.TlsSni? || t.mode.HttpProxyTlsSni? || Tls in t.chain
  }

  datatype Dial = Dial(host: string, port: int) | MissingProxy | Invalid

  function DialEndpoint(ssh: SSH, t: Transport): Dial {
    if UsesHTTPProxy(t) && t.httpProxy.None? then MissingProxy
    else
      var host, port := if UsesHTTPProxy(t) then t.httpProxy.value.host else ssh.host,
                        if UsesHTTPProxy(t) then t.httpProxy.value.port else ssh.port;
      if host == "" || port <= 0 then Invalid else Dial(host, port)
  }

  // There is nowhere to dial if the proxy is used, by the mode or in the chain, and not configured, or if the
  // endpoint has no host or no port.
  lemma DialFailsExactly(ssh: SSH, t: Transport)
    ensures var proxied := t.mode == HttpProxy || t.mode == HttpProxyTlsSni || Proxy in t.chain;
            var d := DialEndpoint(ssh, t);
            && (d == MissingProxy <==> proxied && t.httpProxy.None?)
            && (d == Invalid <==> if proxied then t.httpProxy.Some? && (t.httpProxy.value.host == "" || t.httpProxy.value.port <= 0)
                                  else ssh.host == "" || ssh.port <= 0)
            && (d.Dial? ==> d == if proxied then Dial(t.httpProxy.value.host, t.httpProxy.value.port) else Dial(ssh.host, ssh.port))
    ensures UsesTLS(t) <==> t.mode == TlsSni || t.mode == HttpProxyTlsSni || Tls in t.chain
  {
  }

  function ChainOf(proxy: bool, tls: bool, payload: bool): seq<Layer> {
    [Tcp] + (if proxy then [Proxy] else []) + (if tls then [Tls] else []) + (if payload then [Injection] else []) + [Ssh]
  }

  // What the dialler relies on: each setting is there exactly when its layer is, the chain lists the layers
  // in order, and there is somewhere to dial.
  predicate Consistent(ssh: SSH, t: Transport) {
    && (t.httpProxy.Some? <==> UsesHTTPProxy(t))
    && (t.tls.Some? <==> UsesTLS(t))
    && t.chain == ChainOf(t.httpProxy.Some?, t.tls.Some?, t.payload.enabled)
    && (t.tls.Some? ==> t.tls.value.enabled && t.tls.value.serverName != "" && t.tls.value.alpn != [])
    && DialEndpoint(ssh, t).Dial?
  }

  function OrElse(s: string, other: string): string {
    if s == "" then other else s
  }

  // A setting of the request that is left out or empty falls back to a default or to the SSH server's.
  predicate PayloadFrom(p: Payload, mode: Mode, given: Payload) {
    && p.enabled == given.enabled && p.template == given.template && p.readResponse == given.readResponse
    && p.allowStatuses == (if given.allowStatuses == [] then [101, 200, 204, 301, 302] else given.allowStatuses)
    && p.sendTiming == (
         if given.sendTiming != "" then given.sendTiming
         else if mode.Direct? then "before_ssh"
         else if mode.HttpProxy? then "after_proxy_socket_before_ssh" else "after_tls_before_ssh")
  }

  predicate ProxyFrom(p: HTTPProxy, mode: Mode, hp: Option<HTTPProxy>, ssh: SSH) {
    var given := if hp.Some? then hp.value else HTTPProxy("", 0, "");
    var port := if given.port > 0 then given.port else ssh.port;
    && p.host == OrElse(given.host, ssh.host)
    && p.port == (if mode.HttpProxyTlsSni? && port == 80 then 443 else port)
    && p.connectMethod == OrElse(given.connectMethod, "socket")
  }

  predicate TLSFrom(c: TLS, tls: Option<TLS>, ssh: SSH) {
    var given := if tls.Some? then tls.value else TLS(true, "", true, []);
    c == TLS(true, OrElse(given.serverName, ssh.host), given.insecureSkipVerify,
             if given.alpn == [] then ["http/1.1"] else given.alpn)
  }

  predicate ProxyMode(mode: Mode) {
    mode.HttpProxy? || mode.HttpProxyTlsSni?
  }

  predicate TLSMode(mode: Mode) {
    mode.TlsSni? || mode.HttpProxyTlsSni?
  }

  predicate FromRequest(t: Transport, mode: Mode, payload: Payload, hp: Option<HTTPProxy>, tls: Option<TLS>, ssh: SSH) {
    && t.mode == mode
    && PayloadFrom(t.payload, mode, payload)
    && (t.httpProxy.Some? <==> ProxyMode(mode)) && (t.tls.Some? <==> TLSMode(mode))
    && (t.httpProxy.Some? ==> ProxyFrom(t.httpProxy.value, mode, hp, ssh))
    && (t.tls.Some? ==> TLSFrom(t.tls.value, tls, ssh))
    && t.chain == ChainOf(ProxyMode(mode), TLSMode(mode), payload.enabled)
  }

  // Whatever a request leaves out, a save that passes the checks on the SSH server gives the dialler all it
  // relies on.
  lemma RequestsBecomeConsistent(t: Transport, mode: Mode, payload: Payload, hp: Option<HTTPProxy>, tls: Option<TLS>, ssh: SSH)
    requires FromRequest(t, mode, payload, hp, tls, ssh) && ssh.host != "" && ssh.port > 0
    ensures Consistent(ssh, t)
  {
    ChainMembers(ProxyMode(mode), TLSMode(mode), payload.enabled);
    hide ChainOf;
  }

  lemma ChainMembers(proxy: bool, tls: bool, payload: bool)
    ensures var c := ChainOf(proxy, tls, payload); (Proxy in c <==> proxy) && (Tls in c <==> tls)
  {
  }

  // Which names stand for which mode, in any case and with any white space around them.
  lemma ModeNames(name: string)
    ensures var t, m := TrimSpace(ToLower(name)), NormalizeMode(name);
            && (m == Some(Direct) <==> t == "direct" || t == "ssh" || t == "ssh_payload" || t == "ssh+pl")
            && (m == Some(HttpProxy) <==> t == "http_proxy" || t == "ssh_http_proxy" || t == "ssh+http"
                                          || t == "ssh+http_proxy" || t == "ssh+pl+http")
            && (m == Some(TlsSni) <==> t == "tls_sni" || t == "sni" || t == "ssh+sni" || t == "ssh+pl+sni")
            && (m == Some(HttpProxyTlsSni) <==> t == "http_proxy_tls_sni" || t == "http_tls" || t == "ssh+http+sni"
                                                || t == "ssh+pl+http+sni")
  {
    var t := TrimSpace(ToLower(name));
    hide TrimSpace, ToLower;
    assert t == "direct" || t == "ssh" || t == "ssh_payload" || t == "ssh+pl" ==> NormalizeMode(name) == Some(Direct);
  }

  // The dialler connects to the proxy if there is one, and to the SSH server otherwise. The proxy's host and port
  // are the SSH server's where the request leaves them out, and port 80 becomes 443 in front of TLS.
  lemma DialsTheFirstHop(t: Transport, mode: Mode, payload: Payload, hp: Option<HTTPProxy>, tls: Option<TLS>, ssh: SSH)
    requires FromRequest(t, mode, payload, hp, tls, ssh) && ssh.host != "" && ssh.port > 0
    ensures var host := if hp.Some? && hp.value.host != "" then hp.value.host else ssh.host;
            var port := if hp.Some? && hp.value.port > 0 then hp.value.port else ssh.port;
            DialEndpoint(ssh, t) ==
              match mode
              case Direct => Dial(ssh.host, ssh.port)
              case TlsSni => Dial(ssh.host, ssh.port)
              case HttpProxy => Dial(host, port)
              case HttpProxyTlsSni => Dial(host, if port == 80 then 443 else port)
  {
    ChainMembers(ProxyMode(mode), TLSMode(mode), payload.enabled);
    hide ChainOf;
  }

  lemma LayersInOrder(t: Transport, mode: Mode, payload: Payload, hp: Option<HTTPProxy>, tls: Option<TLS>, ssh: SSH)
    requires FromRequest(t, mode, payload, hp, tls, ssh)
    ensures var tail := if payload.enabled then [Injection, Ssh] else [Ssh];
            t.mode == mode && t.chain ==
              match mode
              case Direct => [Tcp] + tail
              case HttpProxy => [Tcp, Proxy] + tail
              case TlsSni => [Tcp, Tls] + tail
              case HttpProxyTlsSni => [Tcp, Proxy, Tls] + tail
  {
  }

  // What a request that leaves everything out gets.
  lemma LeftOut(t: Transport, mode: Mode, ssh: SSH)
    requires FromRequest(t, mode, Payload(false, "", "", false, []), None, None, ssh)
    ensures var timing := match mode case Direct => "before_ssh" case HttpProxy => "after_proxy_socket_before_ssh"
                                     case TlsSni => "after_tls_before_ssh" case HttpProxyTlsSni => "after_tls_before_ssh";
            t.payload == Payload(false, "", timing, false, [101, 200, 204, 301, 302])
    ensures t.tls == (if mode.TlsSni? || mode.HttpProxyTlsSni? then Some(TLS(true, ssh.host, true, ["http/1.1"])) else None)
    ensures t.httpProxy ==
            match mode case Direct => None case TlsSni => None case HttpProxy => Some(HTTPProxy(ssh.host, ssh.port, "socket"))
                       case HttpProxyTlsSni => Some(HTTPProxy(ssh.host, if ssh.port == 80 then 443 else ssh.port, "socket"))
  {
    hide ChainOf;
  }

  // What it gives stays as it is given, but that TLS is enabled and port 80 becomes 443 in front of it.
  lemma GivenStays(t: Transport, mode: Mode, payload: Payload, hp: HTTPProxy, tls: TLS, ssh: SSH)
    requires FromRequest(t, mode, payload, Some(hp), Some(tls), ssh)
    requires payload.sendTiming != "" && payload.allowStatuses != []
    requires hp.host != "" && hp.port > 0 && hp.connectMethod != "" && tls.serverName != "" && tls.alpn != []
    ensures t.payload == payload
    ensures t.tls == if mode.TlsSni? || mode.HttpProxyTlsSni? then Some(tls.(enabled := true)) else None
    ensures t.httpProxy == if mode.HttpProxy? then Some(hp)
                           else if mode.HttpProxyTlsSni? then Some(hp.(port := if hp.port == 80 then 443 else hp.port)) else None
  {
    hide ChainOf;
  }

  method FillPayload(mode: Mode, given: Payload) returns (payload: Payload)
    ensures PayloadFrom(payload, mode, given)
  {
    payload := given;
    if payload.sendTiming == "" {
      match mode {
        case HttpProxy => payload := payload.(sendTiming := "after_proxy_socket_before_ssh");
        case TlsSni => payload := payload.(sendTiming := "after_tls_before_ssh");
        case HttpProxyTlsSni => payload := payload.(sendTiming := "after_tls_before_ssh");
        case Direct => payload := payload.(sendTiming := "before_ssh");
      }
    }
    if |payload.allowStatuses| == 0 {
      payload := payload.(allowStatuses := [101, 200, 204, 301, 302]);
    }
  }

  method FillProxy(mode: Mode, hp: Option<HTTPProxy>, ssh: SSH) returns (proxy: HTTPProxy)
    ensures ProxyFrom(proxy, mode, hp, ssh)
  {
    proxy := HTTPProxy(ssh.host, ssh.port, "socket");
    if hp.Some? {
      proxy := hp.value;
    }
    if proxy.host == "" {
      proxy := proxy.(host := ssh.host);
    }
    if proxy.port <= 0 {
      proxy := proxy.(port := ssh.port);
    }
    if proxy.connectMethod == "" {
      proxy := proxy.(connectMethod := "socket");
    }
    if mode.HttpProxyTlsSni? && proxy.port == 80 {
      proxy := proxy.(port := 443);
    }
  }

  method FillTLS(tlsCfg: Option<TLS>, ssh: SSH) returns (tc: TLS)
    ensures TLSFrom(tc, tlsCfg, ssh)
  {
    tc := TLS(true, ssh.host, true, ["http/1.1"]);
    if tlsCfg.Some? {
      tc := tlsCfg.value;
    }
    if tc.serverName == "" {
      tc := tc.(serverName := ssh.host);
    }
    if |tc.alpn| == 0 {
      tc := tc.(alpn := ["http/1.1"]);
    }
    tc := tc.(enabled := true);
  }

  method BuildTransport(mode: Mode, given: Payload, hp: Option<HTTPProxy>, tlsCfg: Option<TLS>, ssh: SSH)
    returns (t: Transport)
    ensures FromRequest(t, mode, given, hp, tlsCfg, ssh)
  {
    hide ProxyFrom, TLSFrom;
    var payload := FillPayload(mode, given);
    assert payload.enabled == given.enabled;
    hide PayloadFrom;
    var chain := [Tcp];
    var outHP, outTLS := None, None;
    if mode.HttpProxy? || mode.HttpProxyTlsSni? {
      var proxy := FillProxy(mode, hp, ssh);
      outHP := Some(proxy);
      chain := chain + [Proxy];
    }
    if mode.TlsSni? || mode.HttpProxyTlsSni? {
      var tc := FillTLS(tlsCfg, ssh);
      outTLS := Some(tc);
      chain := chain + [Tls];
    }
    if payload.enabled {
      chain := chain + [Injection];
    }
    chain := chain + [Ssh];
    t := Transport(mode, chain, outHP, outTLS, payload);
  }
}
