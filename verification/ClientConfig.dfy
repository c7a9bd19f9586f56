/** The configuration handed to an administrator for a key, end to end. */
module ClientConfig {
  import opened Bytes
  import opened Model
  import opened Protocol
  import opened ProtocolInvariant
  import opened SecretBox
  import opened ShadowsocksUri
  import opened Services

  datatype KeyConfig = KeyConfig(uri: Text, crossPlatform: CrossPlatform)

  /** Looks the row and its server up, opens the stored secret and prints both forms of configuration. */
  function GetConfig(cfg: Config, domain: Text, keys: map<KeyId, Key>, servers: map<ServerId, Server>, id: KeyId)
    : Option<KeyConfig>
  {
    if id !in keys || keys[id].server !in servers then None
    else
      var key, server := keys[id], servers[keys[id].server];
      var password := Decrypt(cfg.box, key.secret);
      if password.None? then None
      else Some(KeyConfig(
                  Print(Endpoint(key.cipher, password.value, server.hostname, server.tlsPort, key.name)),
                  BuildCrossPlatform(domain, key.cipher, password.value, server.tlsPort,
                                     key.wsPath, key.wsUdpPath, key.udp)))
  }

  /** Every way to connect that the configuration lists uses this cipher and password. */
  predicate Offers(c: CrossPlatform, cipher: Text, password: Text) {
    && (forall t :: t in c.firstSupported ==> t.cipher == cipher && t.password == password)
    && (c.udp.Some? ==> c.udp.value.cipher == cipher && c.udp.value.password == password)
  }

  /**
   The WebSocket route first, wss://domain/path/tcp, then the plain one to the given address, and the
   route for UDP, wss://domain/udpPath/udp, exactly if the key uses UDP and has such a path.
   */
  predicate WssFirst(c: CrossPlatform, domain: Text, port: int, path: Text, udpPath: Text, udp: bool) {
    && |c.firstSupported| == 2 && c.firstSupported[0].Wss? && c.firstSupported[1].Shadowsocks?
    && c.firstSupported[0].url == [119, 115, 115, 58, 47, 47] + domain + [47] + path + [47, 116, 99, 112]
    && c.firstSupported[1].host == domain && c.firstSupported[1].port == port
    && (c.udp.Some? <==> udp && udpPath != [])
    && (c.udp.Some? ==>
          && c.udp.value.Wss?
          && c.udp.value.url == [119, 115, 115, 58, 47, 47] + domain + [47] + udpPath + [47, 117, 100, 112])
  }

  lemma RoutesOffer(domain: Text, cipher: Text, password: Text, port: int, wsPath: Text, wsUdpPath: Text, udp: bool)
    ensures var c := BuildCrossPlatform(domain, cipher, password, port, wsPath, wsUdpPath, udp);
            Offers(c, cipher, password) && WssFirst(c, domain, port, wsPath, wsUdpPath, udp)
  {
  }

  /**
   In every reachable state, for every row: the configuration exists, every transport in it carries
   the credential the provider issued under the row's current reference, and its URI decodes to that
   credential with the server's address and the key's name exactly when the cipher has no colon.
   */
  lemma HandedOutConfig(cfg: Config, es: seq<Event>, domain: Text, servers: map<ServerId, Server>, id: KeyId)
    requires cfg.box.Lawful()
    requires var w := Run(cfg, INIT, es); id in w.keys && w.keys[id].server in servers
    ensures var w := Run(cfg, INIT, es);
            var key, server := w.keys[id], servers[w.keys[id].server];
            var config := GetConfig(cfg, domain, w.keys, servers, id);
            && key.ref < |w.remote.issued|
            && config.Some?
            && var credential := w.remote.issued[key.ref];
               && Offers(config.value.crossPlatform, credential.cipher, credential.password)
               && WssFirst(config.value.crossPlatform, domain, server.tlsPort, key.wsPath, key.wsUdpPath, key.udp)
               && (Parse(config.value.uri)
                   == Some(Endpoint(credential.cipher, credential.password, server.hostname, server.tlsPort, key.name))
                   <==> COLON !in credential.cipher)
  {
    hide Run, Print, Parse, BuildCrossPlatform, Offers, WssFirst;
    RunKeeps(cfg, INIT, es);
    var w := Run(cfg, INIT, es);
    var key, server := w.keys[id], servers[w.keys[id].server];
    assert SnapOk(cfg, w, Snap(id, key));
    var credential := w.remote.issued[key.ref];
    RoutesOffer(domain, credential.cipher, credential.password, server.tlsPort, key.wsPath, key.wsUdpPath, key.udp);
    RoundTrip(Endpoint(credential.cipher, credential.password, server.hostname, server.tlsPort, key.name));
  }
}
