/** The status machine of one server, and the globals that hand out proxy connections. */
module Servers {
  import opened Text

  datatype Status = Failed | Disconnected | Unknown | Connected

  /** The part of a server the status machine works on; `stream` says whether its own stream is open. */
  datatype Health = Health(status: Status, stream: bool, failed: int)

  /** A connected server, or one in an unknown state, still holds its stream. */
  predicate Sane(h: Health) {
    h.status == Connected || h.status == Unknown ==> h.stream
  }

  predicate Due(h: Health, retry: int, now: int) {
    retry >= 0 && now >= h.failed + retry
  }

  function Closed(h: Health): Health {
    h.(status := Disconnected, stream := false)
  }

  function Downed(now: int): Health {
    Health(Failed, false, now)
  }

  function Reopened(h: Health, ok: bool, now: int): Health {
    if ok then h.(status := Connected, stream := true) else Downed(now)
  }

  /** Opening a server that answers `ok`. */
  function Opened(h: Health, retry: int, force: bool, ok: bool, now: int): Health {
    match h.status
    case Disconnected => Reopened(h, ok, now)
    case Connected => h
    case Unknown => if force then Reopened(h, ok, now) else h
    case Failed => if Due(h, retry, now) then Reopened(h, ok, now) else h
  }

  /** Which answers opening a server can give. */
  predicate CanAnswer(h: Health, retry: int, force: bool, ok: bool, now: int) {
    match h.status
    case Disconnected => true
    case Connected => ok
    case Unknown => force || ok
    case Failed => Due(h, retry, now) || !ok
  }

  function AfterFailure(h: Health, viaProxy: bool, now: int): Health {
    if viaProxy then Downed(now)
    else match h.status
         case Disconnected => h
         case Unknown => h.(status := Disconnected)
         case _ => Downed(now)
  }

  /** What the downstream says about data integrity, and what is used on the connection. */
  datatype Integrity = Unsupported | SupportedOff | Crc

  class Server {
    const host: string
    const port: nat
    const retryInterval: int
    const proxyStr: string
    var status: Status
    var stream: bool
    var failed: int
    var gotOptions: bool
    var integrity: Integrity
    var integrityInUse: Integrity
    var proxy: Server?

    ghost function View(): (h: Health)
      reads this
    {
      Health(status, stream, failed)
    }

    constructor (host: string, port: nat, retryInterval: int)
      ensures View() == Health(Disconnected, false, 0) && proxy == null && !gotOptions
      ensures integrity == integrityInUse == Unsupported
      ensures this.host == host && this.port == port && this.retryInterval == retryInterval
      ensures proxyStr == "A:" + host + ":" + Decimal(port) + " "
    {
      this.host, this.port, this.retryInterval := host, port, retryInterval;
      proxyStr := "A:" + host + ":" + Decimal(port) + " ";
      status, stream, failed, gotOptions, proxy := Disconnected, false, 0, false, null;
      integrity, integrityInUse := Unsupported, Unsupported;
    }

    method Disconnect()
      modifies `status, `stream
      ensures View() == Closed(old(View()))
      ensures status == Disconnected && !stream
    {
      if stream {
        stream := false;
      }
      status := Disconnected;
    }

    method Deactivate(now: int)
      modifies `status, `stream, `failed
      ensures View() == Downed(now)
      ensures status == Failed && !stream && failed == now
    {
      Disconnect();
      status := Failed;
      failed := now;
    }

    /** Connects anew, trying `retries` more times after a first refusal. */
    method Reopen(retries: int, now: int) returns (ok: bool)
      modifies `status, `stream, `failed, `gotOptions
      ensures View() == Reopened(old(View()), ok, now)
      ensures if ok then status == Connected && stream && failed == old(failed)
              else status == Failed && !stream && failed == now
      ensures gotOptions == (old(gotOptions) && !ok)
    {
      if stream {
        Disconnect();
      }
      var ntries := retries;
      stream := *;
      while !stream && ntries > 0
        invariant failed == old(failed) && gotOptions == old(gotOptions)
      {
        ntries := ntries - 1;
        stream := *;
      }
      if !stream {
        Deactivate(now);
        return false;
      }
      status := Connected;
      gotOptions := false;
      return true;
    }

    /** A server that is connected, or in an unknown state that is not checked, is left alone, and so is one that has
        failed and whose retry interval is negative or not over; any other one is connected anew, or checked, and ends
        connected, or failed as of now. */
    method Open(force: bool, retries: int, now: int) returns (ok: bool)
      requires Sane(View())
      modifies `status, `stream, `failed, `gotOptions
      ensures CanAnswer(old(View()), retryInterval, force, ok, now)
      ensures View() == Opened(old(View()), retryInterval, force, ok, now)
      ensures old(status) == Connected || (old(status) == Unknown && !force) ==> ok && View() == old(View())
      ensures old(status) == Failed && (retryInterval < 0 || now < old(failed) + retryInterval) ==>
                !ok && View() == old(View())
      ensures (old(status) == Failed && retryInterval >= 0 && now >= old(failed) + retryInterval)
              || old(status) == Disconnected || (old(status) == Unknown && force) ==>
                if ok then status == Connected && stream && failed == old(failed)
                else status == Failed && !stream && failed == now
    {
      match status
      case Disconnected =>
        ok := Reopen(retries, now);
      case Connected =>
        ok := true;
      case Unknown =>
        if force {
          var version: bool := *;
          if !version {
            var reopened := Reopen(retries, now);
            if !reopened {
              return false;
            }
          }
          status := Connected;
        }
        ok := true;
      case Failed =>
        ok := false;
        if retryInterval >= 0 && now >= failed + retryInterval {
          ok := Reopen(retries, now);
        }
    }

    /** True when the failure was final, false when the server may be tried again. */
    method Failure(now: int) returns (final: bool)
      requires proxy != this
      modifies `status, `stream, `failed, proxy
      ensures View() == AfterFailure(old(View()), proxy != null, now)
      ensures proxy != null || old(status) == Failed || old(status) == Connected ==>
                status == Failed && !stream && failed == now
      ensures proxy == null && (old(status) == Disconnected || old(status) == Unknown) ==>
                status == Disconnected && stream == old(stream) && failed == old(failed)
      ensures final == (proxy != null || old(status) == Failed || old(status) == Connected)
      ensures proxy != null ==>
                && proxy.View() == Closed(old(proxy.View())) && proxy.proxy == old(proxy.proxy)
                && proxy.gotOptions == old(proxy.gotOptions)
    {
      if proxy != null {
        proxy.Disconnect();
        Deactivate(now);
        return true;
      }
      if status == Disconnected {
        return false;
      }
      if status == Unknown {
        status := Disconnected;
        return false;
      }
      Deactivate(now);
      return true;
    }

    /** Ends a lookup: a live server is reached through `via` if there is one, and then gives up its own stream. */
    method Attach(via: Server?)
      modifies `status, `stream, `proxy
      ensures View() == if via != null && old(status) != Failed then Closed(old(View())) else old(View())
      ensures if via != null && old(status) != Failed then status == Disconnected && !stream
              else status == old(status) && stream == old(stream)
      ensures proxy == if old(status) != Failed then via else null
    {
      if via != null && status != Failed {
        Disconnect();
        proxy := via;
      } else {
        proxy := null;
      }
    }

    /** Whether the walk has to go on to another server. */
    method ShouldFailover(via: Server?, retries: int, now: int) returns (failover: bool)
      requires Sane(View())
      modifies `status, `stream, `failed, `gotOptions
      ensures via == null ==>
                && CanAnswer(old(View()), retryInterval, false, !failover, now)
                && View() == Opened(old(View()), retryInterval, false, !failover, now)
      ensures via != null ==>
                && failover == (old(status) == Failed && !Due(old(View()), retryInterval, now))
                && View() == if old(status) == Failed && !failover then old(View()).(status := Unknown) else old(View())
      ensures via != null ==> gotOptions == old(gotOptions)
      ensures old(status) == Connected || old(status) == Unknown ==> !failover && View() == old(View())
      ensures old(status) == Failed && (retryInterval < 0 || now < old(failed) + retryInterval) ==>
                failover && View() == old(View())
      ensures old(status) == Failed && retryInterval >= 0 && now >= old(failed) + retryInterval && via != null ==>
                !failover && status == Unknown && stream == old(stream) && failed == old(failed)
      ensures via != null && old(status) == Disconnected ==> !failover && View() == old(View())
      ensures via == null && (old(status) == Disconnected
                || (old(status) == Failed && retryInterval >= 0 && now >= old(failed) + retryInterval)) ==>
                if failover then status == Failed && !stream && failed == now
                else status == Connected && stream && failed == old(failed)
    {
      failover := false;
      if via == null {
        var ok := Open(false, retries, now);
        failover := !ok;
      } else if status == Failed {
        if retryInterval >= 0 && now >= failed + retryInterval {
          status := Unknown;
        } else {
          failover := true;
        }
      }
    }
  }

  /** Module globals: failover settings and the connections to the multiplexing proxy. */
  class Globals {
    const proxyHost: string
    const proxyPort: nat
    const allowFailover: bool
    const maxFailoverAttempts: nat
    const connectionRetries: int
    var inMulti: bool
    var proxyConnectFailed: bool
    // the proxy connection kept in the persistent list
    var persistent: Server?
    // the per-server proxy connections of the running multi operation
    var multi: map<string, Server>

    // all proxy connections made so far
    ghost var proxies: set<Server>

    ghost predicate Valid()
      reads this, proxies
    {
      && (persistent != null ==> persistent in proxies)
      && (forall k <- multi :: multi[k] in proxies)
      && forall p <- proxies :: Sane(p.View()) && p.proxy == null && p.host == proxyHost && p.port == proxyPort
    }

    constructor (
      proxyHost: string, proxyPort: nat, allowFailover: bool, maxFailoverAttempts: nat, connectionRetries: int)
      ensures Valid() && !inMulti && !proxyConnectFailed && persistent == null && multi == map[] && proxies == {}
      ensures this.proxyHost == proxyHost && this.proxyPort == proxyPort
      ensures this.allowFailover == allowFailover && this.maxFailoverAttempts == maxFailoverAttempts
      ensures this.connectionRetries == connectionRetries
    {
      this.proxyHost, this.proxyPort := proxyHost, proxyPort;
      this.allowFailover, this.maxFailoverAttempts := allowFailover, maxFailoverAttempts;
      this.connectionRetries := connectionRetries;
      inMulti, proxyConnectFailed, persistent, multi, proxies := false, false, null, map[], {};
    }

    /** Outside a multi operation a proxy that is handed out is connected, and always the same one. Inside one it is
        open exactly when no connection was kept for the server yet, or the one that was kept is open. */
    method GetProxy(server: Server, now: int) returns (p: Server?)
      requires Valid()
      modifies this, proxies
      ensures Valid() && inMulti == old(inMulti) && old(proxies) <= proxies && fresh(proxies - old(proxies))
      ensures p != null ==> p in proxies
      ensures p != null ==> p.host == proxyHost != "" && p.port == proxyPort
      ensures p != null && !inMulti ==> p.status == Connected && p.stream && p == persistent
      ensures !inMulti && old(persistent) != null ==> persistent == old(persistent)
      ensures p == null && !inMulti ==> proxyHost == "" || (persistent != null && persistent.status == Failed)
      ensures p == null && inMulti ==> proxyHost == "" || proxyConnectFailed
      ensures p != null && inMulti ==> (p.stream <==> old(server.proxyStr !in multi || multi[server.proxyStr].stream))
      ensures old(inMulti && !proxyConnectFailed && server.proxyStr in multi) && proxyHost != "" ==>
                p == old(multi[server.proxyStr]) && p.View() == old(p.View()) && p.gotOptions == old(p.gotOptions)
    {
      if proxyHost == "" {
        return null;
      }
      if inMulti {
        p := GetProxyForMulti(server, now);
        return;
      }
      if persistent == null {
        persistent := new Server(proxyHost, proxyPort, 0);
        proxies := proxies + {persistent};
      } else if persistent.status == Connected {
        persistent.status := Unknown;
      }
      p := persistent;
      var ok := p.Open(true, connectionRetries, now);
      if !ok {
        p := null;
      }
    }

    /** One proxy connection per server, kept for the length of the multi operation. */
    method GetProxyForMulti(server: Server, now: int) returns (p: Server?)
      requires Valid()
      modifies this, proxies
      ensures Valid() && inMulti == old(inMulti) && persistent == old(persistent)
      ensures old(proxies) <= proxies && fresh(proxies - old(proxies))
      ensures p != null ==> p in proxies
      ensures p == null <==> proxyConnectFailed
      ensures old(proxyConnectFailed) ==> proxyConnectFailed
      ensures old(!proxyConnectFailed && server.proxyStr in multi) ==>
                p == old(multi[server.proxyStr]) && p.View() == old(p.View()) && p.gotOptions == old(p.gotOptions)
      ensures p != null && old(server.proxyStr !in multi) ==> p.status == Connected && p.stream
      ensures p != null ==> multi == old(multi)[server.proxyStr := p]
      ensures p == null ==> multi == old(multi)
    {
      if proxyConnectFailed {
        return null;
      }
      if server.proxyStr in multi {
        return multi[server.proxyStr];
      }
      p := new Server(proxyHost, proxyPort, 0);
      var ok := p.Open(true, connectionRetries, now);
      if !ok {
        proxyConnectFailed := true;
        p := null;
      } else {
        multi := multi[server.proxyStr := p];
        proxies := proxies + {p};
      }
    }
  }
}
