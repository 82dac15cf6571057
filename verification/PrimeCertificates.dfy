/** Literal witnesses that the field size and the group order are prime (Pocklington's criterion), and
    for the power of 2 that is the root of -1.
    Each trail lists the residues reached while a small base is raised to a power, four bits a link. */
module PrimeCertificates {
  import opened Primes
  import opened Witness

  lemma P991()
    ensures Prime(991)
  {
    var p := AllPowers(50.0, 991.0);
    var e, x := Walk(p, 50.0, 991.0, 0, 1.0,
        Link(0.0, 0.0, 0.0, 0.0, 1.0,
        Link(1.0, 0.0, 1.0, 1.0, 1.0,
        End)));
    SmallPrime(11);
    Certified(p, 991, 50, 11, 809);
    PrimeByTwice(991, 11, 2);
  }

  lemma Factor1()
    ensures Prime(8574133)
  {
    var p := AllPowers(3435729.0, 8574133.0);
    var e, x := Walk(p, 3435729.0, 8574133.0, 0, 1.0,
        Link(0.0, 0.0, 0.0, 0.0, 1.0,
        Link(0.0, 0.0, 1.0, 1.0, 7537281.0,
        Link(1.0, 1.0, 0.0, 1.0, 1416919.0,
        Link(1.0, 1.0, 1.0, 1.0, 1.0,
        End)))));
    P991();
    Certified(p, 8574133, 3435729, 991, 1014251);
    PrimeByTwice(8574133, 991, 2);
  }

  lemma Factor2()
    ensures Prime(1919519569386763)
  {
    var p := AllPowers(1059928654987441.0, 1919519569386763.0);
    var e, x := Walk(p, 1059928654987441.0, 1919519569386763.0, 0, 1.0,
        Link(1.0, 0.0, 0.0, 0.0, 177743405145843.0,
        Link(0.0, 0.0, 1.0, 0.0, 1731416200464907.0,
        Link(1.0, 1.0, 0.0, 1.0, 1815542347366093.0,
        Link(0.0, 1.0, 0.0, 0.0, 1461878117886092.0,
        Link(1.0, 0.0, 1.0, 1.0, 310417877454699.0,
        Link(0.0, 1.0, 0.0, 1.0, 1.0,
        End)))))));
    Factor1();
    Certified(p, 1919519569386763, 1059928654987441, 8574133, 1290547218147893);
    PrimeByTwice(1919519569386763, 8574133, 3);
  }

  lemma P9463()
    ensures Prime(9463)
  {
    var p := AllPowers(6023.0, 9463.0);
    var e, x := Walk(p, 6023.0, 9463.0, 0, 1.0,
        Link(0.0, 1.0, 0.0, 1.0, 3275.0,
        Link(0.0, 0.0, 1.0, 1.0, 1.0,
        End)));
    SmallPrime(83);
    Certified(p, 9463, 6023, 83, 11);
    PrimeByTwice(9463, 83, 1);
  }

  lemma P37853()
    ensures Prime(37853)
  {
    var p := AllPowers(16.0, 37853.0);
    var e, x := Walk(p, 16.0, 37853.0, 0, 1.0,
        Link(0.0, 0.0, 1.0, 0.0, 256.0,
        Link(0.0, 1.0, 0.0, 0.0, 27703.0,
        Link(1.0, 1.0, 1.0, 1.0, 1702.0,
        Link(0.0, 1.0, 1.0, 1.0, 1.0,
        End)))));
    P9463();
    Certified(p, 37853, 16, 9463, 32806);
    PrimeByTwice(37853, 9463, 1);
  }

  lemma P75707()
    ensures Prime(75707)
  {
    var p := AllPowers(4.0, 75707.0);
    var e, x := Walk(p, 4.0, 75707.0, 0, 1.0,
        Link(1.0, 0.0, 0.0, 1.0, 35023.0,
        Link(0.0, 0.0, 1.0, 1.0, 44580.0,
        Link(1.0, 1.0, 0.0, 1.0, 42016.0,
        Link(1.0, 1.0, 0.0, 1.0, 1.0,
        End)))));
    P37853();
    Certified(p, 75707, 4, 37853, 25236);
    PrimeByTwice(75707, 37853, 1);
  }

  lemma Factor3Part1a(p: iset<(nat, real)>)
    requires PowersOf(p, 56747016255153332959347766392083459.0, 75445702479781427272750846543864801.0)
    requires (0, 1.0) in p
    ensures (29289544210, 8700384576254058316344741335546960.0) in p
  {
    var e, x := Walk(p, 56747016255153332959347766392083459.0, 75445702479781427272750846543864801.0, 0, 1.0,
        Link(0.0, 0.0, 0.0, 0.0, 1.0,
        Link(0.0, 1.0, 1.0, 0.0, 155959012102660387425813834929579.0,
        Link(1.0, 1.0, 0.0, 1.0, 27202643174427731855640178633001884.0,
        Link(0.0, 0.0, 0.0, 1.0, 44881019911104472380550725301959314.0,
        Link(1.0, 1.0, 0.0, 0.0, 15937525546816407118415523347669111.0,
        Link(1.0, 0.0, 1.0, 0.0, 42568191075887745383587395894444019.0,
        Link(1.0, 1.0, 1.0, 1.0, 72353342897573626660186343144851463.0,
        Link(1.0, 0.0, 1.0, 0.0, 14117643248705449579903760955255389.0,
        Link(0.0, 0.0, 0.0, 1.0, 26687327869095617149515767253405403.0,
        Link(0.0, 0.0, 1.0, 0.0, 8700384576254058316344741335546960.0,
        End)))))))))));
  }

  lemma Factor3Part1b(p: iset<(nat, real)>)
    requires PowersOf(p, 56747016255153332959347766392083459.0, 75445702479781427272750846543864801.0)
    requires (29289544210, 8700384576254058316344741335546960.0) in p
    ensures (1919519569386763, 1.0) in p
  {
    var e, x := Walk(p, 56747016255153332959347766392083459.0, 75445702479781427272750846543864801.0, 29289544210,
        8700384576254058316344741335546960.0,
        Link(1.0, 0.0, 0.0, 1.0, 13956964227800546053326728666811534.0,
        Link(1.0, 1.0, 0.0, 1.0, 71831935470169421365666802305933708.0,
        Link(0.0, 0.0, 0.0, 0.0, 12483880574092517505129590836317004.0,
        Link(1.0, 0.0, 1.0, 1.0, 1.0,
        End)))));
  }

  lemma Factor3()
    ensures Prime(75445702479781427272750846543864801)
  {
    var p1 := AllPowers(56747016255153332959347766392083459.0, 75445702479781427272750846543864801.0);
    Factor3Part1a(p1);
    Factor3Part1b(p1);
    Factor2();
    Certified(p1, 75445702479781427272750846543864801, 56747016255153332959347766392083459, 1919519569386763,
        74602835786463724888147869570305675);
    var p2 := AllPowers(58781699294900834553279248901967638.0, 75445702479781427272750846543864801.0);
    var e2, x2 := Walk(p2, 58781699294900834553279248901967638.0, 75445702479781427272750846543864801.0, 0, 1.0,
        Link(0.0, 0.0, 0.0, 0.0, 1.0,
        Link(0.0, 0.0, 0.0, 1.0, 58781699294900834553279248901967638.0,
        Link(0.0, 0.0, 1.0, 0.0, 67447059549274550976172462060274558.0,
        Link(0.0, 1.0, 1.0, 1.0, 43606569418259492473421754424002376.0,
        Link(1.0, 0.0, 1.0, 1.0, 16430842475225517589341425812002149.0,
        Link(1.0, 0.0, 1.0, 1.0, 1.0,
        End)))))));
    P75707();
    Certified(p2, 75445702479781427272750846543864801, 58781699294900834553279248901967638, 75707,
        8986369574106813140303762220009459);
    PrimeByPair(75445702479781427272750846543864801, 1919519569386763, 75707);
  }

  lemma Factor4Parta(p: iset<(nat, real)>)
    requires PowersOf(p, 69490809710348678725736597923071784769591275419387514694139338586948360.0,
                      74058212732561358302231226437062788676166966415465897661863160754340907.0)
    requires (0, 1.0) in p
    ensures (62407222391, 5233083480857771156401381539959552528946055228533057878759786677202459.0) in p
  {
    var e, x := Walk(p, 69490809710348678725736597923071784769591275419387514694139338586948360.0,
        74058212732561358302231226437062788676166966415465897661863160754340907.0, 0, 1.0,
        Link(0.0, 0.0, 0.0, 0.0, 1.0,
        Link(1.0, 1.0, 1.0, 0.0, 2395651831899443575619999089234687095966297154770387525027912120116590.0,
        Link(1.0, 0.0, 0.0, 0.0, 65005703843471046884297048267651581560333448911250758560582020233644526.0,
        Link(0.0, 1.0, 1.0, 1.0, 15459224745017810788352643921931952037489605334639773072259534817348370.0,
        Link(1.0, 1.0, 0.0, 0.0, 49988289520951304755462861377473370203768246459590314323104548528054391.0,
        Link(0.0, 0.0, 1.0, 0.0, 70800302450674573892742726391040867568412593492343041149342563322990053.0,
        Link(1.0, 0.0, 1.0, 0.0, 45548416654163662946989229590980918867446862091683458246820881766362212.0,
        Link(0.0, 1.0, 0.0, 0.0, 34956416377924708812584833391066731331428334105073926156463017554867765.0,
        Link(0.0, 1.0, 1.0, 1.0, 60522204641388360257719954407151554074121441222322640975335301043935729.0,
        Link(0.0, 1.0, 1.0, 1.0, 5233083480857771156401381539959552528946055228533057878759786677202459.0,
        End)))))))))));
  }

  lemma Factor4Partb(p: iset<(nat, real)>)
    requires PowersOf(p, 69490809710348678725736597923071784769591275419387514694139338586948360.0,
                      74058212732561358302231226437062788676166966415465897661863160754340907.0)
    requires (62407222391, 5233083480857771156401381539959552528946055228533057878759786677202459.0) in p
    ensures (68617466676897881618743, 58629963836264783547180002017400022820953712434667027232132231095850507.0) in p
  {
    var e, x := Walk(p, 69490809710348678725736597923071784769591275419387514694139338586948360.0,
        74058212732561358302231226437062788676166966415465897661863160754340907.0, 62407222391,
        5233083480857771156401381539959552528946055228533057878759786677202459.0,
        Link(1.0, 0.0, 1.0, 1.0, 28155963719885292663869233263185011440794308128056499501030933989264660.0,
        Link(1.0, 0.0, 0.0, 0.0, 31505606371679734915597632626915222924733724867874634384297152427674762.0,
        Link(0.0, 0.0, 0.0, 1.0, 39592860730417117421109109325925042521510364406505185451266831930566809.0,
        Link(0.0, 1.0, 0.0, 1.0, 28309188993743864354119995794692672907098942770400917878836700263464505.0,
        Link(1.0, 0.0, 1.0, 0.0, 25395140090164848658330976235476322931644535928932287388579706368372375.0,
        Link(0.0, 0.0, 0.0, 1.0, 5262655384154029339887369427438655103143598368955218141797589714005615.0,
        Link(0.0, 1.0, 1.0, 1.0, 6058161326686104506509767362518466438300810243177755962935241661215327.0,
        Link(1.0, 0.0, 0.0, 1.0, 33534202839170675392774773078084590756052566323445909790810864890538693.0,
        Link(0.0, 0.0, 1.0, 1.0, 51968074544915443050853184026991512074198152344691996686766403611619794.0,
        Link(0.0, 1.0, 1.0, 1.0, 58629963836264783547180002017400022820953712434667027232132231095850507.0,
        End)))))))))));
  }

  lemma Factor4Partc(p: iset<(nat, real)>)
    requires PowersOf(p, 69490809710348678725736597923071784769591275419387514694139338586948360.0,
                      74058212732561358302231226437062788676166966415465897661863160754340907.0)
    requires (68617466676897881618743, 58629963836264783547180002017400022820953712434667027232132231095850507.0) in p
    ensures (75445702479781427272750846543864801, 1.0) in p
  {
    var e, x := Walk(p, 69490809710348678725736597923071784769591275419387514694139338586948360.0,
        74058212732561358302231226437062788676166966415465897661863160754340907.0, 68617466676897881618743,
        58629963836264783547180002017400022820953712434667027232132231095850507.0,
        Link(1.0, 0.0, 0.0, 0.0, 2357229829368336086363968184068480706041449792849514555233597382899395.0,
        Link(0.0, 1.0, 1.0, 1.0, 43477568222200666162815720758861920635987876099241236114146871915643184.0,
        Link(0.0, 0.0, 1.0, 1.0, 28751713256252279953017188645486945203257454578351364225077138433204435.0,
        Link(1.0, 0.0, 0.0, 1.0, 13343515644713718985950547620931362457704974308825894258439671891400686.0,
        Link(0.0, 1.0, 0.0, 1.0, 73559081625808744828472315670605024424302882386835939047348511341645948.0,
        Link(1.0, 0.0, 1.0, 1.0, 15151217314024759360594537935714382483680489456364192473979144464918530.0,
        Link(0.0, 0.0, 1.0, 0.0, 28926930436698826442651590268352887552066052455340698769046093842516466.0,
        Link(0.0, 0.0, 1.0, 1.0, 72445856303582737268265764553588218104962561695651867502817892122723462.0,
        Link(1.0, 1.0, 1.0, 0.0, 67910354579507421028615363730533684601932902935596694567711991427550383.0,
        Link(0.0, 0.0, 0.0, 1.0, 1.0,
        End)))))))))));
  }

  lemma Factor4()
    ensures Prime(74058212732561358302231226437062788676166966415465897661863160754340907)
  {
    var p := AllPowers(69490809710348678725736597923071784769591275419387514694139338586948360.0,
        74058212732561358302231226437062788676166966415465897661863160754340907.0);
    Factor4Parta(p);
    Factor4Partb(p);
    Factor4Partc(p);
    Factor3();
    Certified(p, 74058212732561358302231226437062788676166966415465897661863160754340907,
        69490809710348678725736597923071784769591275419387514694139338586948360, 75445702479781427272750846543864801,
        70463328703800545008217672123162676565183935400628861884889913886334520);
    PrimeByTwice(74058212732561358302231226437062788676166966415465897661863160754340907,
        75445702479781427272750846543864801, 2);
  }

  lemma FieldSizeParta(p: iset<(nat, real)>)
    requires PowersOf(p, 427094198651976259540344842774561673889945192655078505504941250475370961481.0,
                      57896044618658097711785492504343953926634992332820282019728792003956564819949.0)
    requires (0, 1.0) in p
    ensures (46086538928, 18855187050262642606064855263681331663124173866884721516279807491556334298332.0) in p
  {
    var e, x := Walk(p, 427094198651976259540344842774561673889945192655078505504941250475370961481.0,
        57896044618658097711785492504343953926634992332820282019728792003956564819949.0, 0, 1.0,
        Link(0.0, 0.0, 0.0, 0.0, 1.0,
        Link(1.0, 0.0, 1.0, 0.0, 6282790753020112160267437030074574253813645774790429746783168155208757012557.0,
        Link(1.0, 0.0, 1.0, 1.0, 14671606099065127063022213855609452736378076549275320985106317603993266282337.0,
        Link(1.0, 0.0, 1.0, 0.0, 44402186579791228141035588085027747096280442063129798053946789133901316676614.0,
        Link(1.0, 1.0, 1.0, 1.0, 43363039523573767831230147508338943781674155541484516688340096495548809479826.0,
        Link(1.0, 0.0, 0.0, 0.0, 13424463060823658616402346012007364081521411047400928553282893951403917242422.0,
        Link(1.0, 1.0, 0.0, 0.0, 48272500973152295566946354058903573395325749327719782344882181635352865030830.0,
        Link(0.0, 1.0, 1.0, 0.0, 21581212595436810779393696112502495100442804460030777336590753122133947916047.0,
        Link(1.0, 0.0, 1.0, 1.0, 39113827730608986314749684476490932209953939012363727335166725308773928373370.0,
        Link(0.0, 0.0, 0.0, 0.0, 18855187050262642606064855263681331663124173866884721516279807491556334298332.0,
        End)))))))))));
  }

  lemma FieldSizePartb(p: iset<(nat, real)>)
    requires PowersOf(p, 427094198651976259540344842774561673889945192655078505504941250475370961481.0,
                      57896044618658097711785492504343953926634992332820282019728792003956564819949.0)
    requires (46086538928, 18855187050262642606064855263681331663124173866884721516279807491556334298332.0) in p
    ensures (50672685435927170855618,
             36679754671100784502224032698518219776846645840381363804541628501931343845944.0) in p
  {
    var e, x := Walk(p, 427094198651976259540344842774561673889945192655078505504941250475370961481.0,
        57896044618658097711785492504343953926634992332820282019728792003956564819949.0, 46086538928,
        18855187050262642606064855263681331663124173866884721516279807491556334298332.0,
        Link(1.0, 0.0, 0.0, 1.0, 931337745902142669503822979629507155062445057196598851932773263800614343851.0,
        Link(0.0, 1.0, 0.0, 0.0, 47350905953550313082384582914768386779591231700435899029508418642693787469187.0,
        Link(1.0, 1.0, 1.0, 1.0, 32169130630667647042736653048045261217567817499652620705188996912552536924466.0,
        Link(1.0, 1.0, 0.0, 1.0, 39194011694532861197585445397462742577184241789917629493980119483213449050725.0,
        Link(0.0, 0.0, 0.0, 0.0, 56654826113137596204768014569950329153426965729478432077505057568350283905680.0,
        Link(1.0, 1.0, 1.0, 1.0, 14715464329062704689330619358469326494056273169863050137747010548928835308075.0,
        Link(0.0, 0.0, 1.0, 1.0, 29194840390136022116418100174159504709805301889691385347983575010945946447477.0,
        Link(0.0, 0.0, 1.0, 0.0, 40494757217524916096333893757326246094581674999797029203460448369644634437933.0,
        Link(1.0, 1.0, 0.0, 0.0, 13749678231053669407885903205390060755118682647629435216465254709945654881336.0,
        Link(0.0, 0.0, 1.0, 0.0, 36679754671100784502224032698518219776846645840381363804541628501931343845944.0,
        End)))))))))));
  }

  lemma FieldSizePartc(p: iset<(nat, real)>)
    requires PowersOf(p, 427094198651976259540344842774561673889945192655078505504941250475370961481.0,
                      57896044618658097711785492504343953926634992332820282019728792003956564819949.0)
    requires (50672685435927170855618,
              36679754671100784502224032698518219776846645840381363804541628501931343845944.0) in p
    ensures (55715206847437491779247892907918925,
             6549110976955184117405636693563754975455334343930016720517171971217636266916.0) in p
  {
    var e, x := Walk(p, 427094198651976259540344842774561673889945192655078505504941250475370961481.0,
        57896044618658097711785492504343953926634992332820282019728792003956564819949.0, 50672685435927170855618,
        36679754671100784502224032698518219776846645840381363804541628501931343845944.0,
        Link(1.0, 1.0, 0.0, 0.0, 26375387592200140890173505680436436792661476440963051257229024838570486475255.0,
        Link(1.0, 1.0, 0.0, 0.0, 51891996475240217344912424168125591879105831540732490679134744077936660996177.0,
        Link(1.0, 0.0, 1.0, 0.0, 21699744896966610672265588861461956356733168456234506605561573610781270510450.0,
        Link(1.0, 0.0, 1.0, 1.0, 8297162732913663049130402952361943475440129122795872372081970123405835636598.0,
        Link(1.0, 0.0, 1.0, 0.0, 1066350097371616244608709201357086835961572863019353798640477471761230210929.0,
        Link(1.0, 0.0, 1.0, 1.0, 52811916541552230674351750521636694425773201333048980882767612662244023622987.0,
        Link(1.0, 0.0, 0.0, 0.0, 50756872667639136851086174897902427086064480639904915940823270431555292184292.0,
        Link(0.0, 1.0, 1.0, 0.0, 35030720980695644378816764561547296219421716289698107714707623755379142404113.0,
        Link(0.0, 1.0, 0.0, 0.0, 48760568120287607313244737400751252546748954040758908117490580321502832363889.0,
        Link(1.0, 1.0, 0.0, 1.0, 6549110976955184117405636693563754975455334343930016720517171971217636266916.0,
        End)))))))))));
  }

  lemma FieldSizePartd(p: iset<(nat, real)>)
    requires PowersOf(p, 427094198651976259540344842774561673889945192655078505504941250475370961481.0,
                      57896044618658097711785492504343953926634992332820282019728792003956564819949.0)
    requires (55715206847437491779247892907918925,
              6549110976955184117405636693563754975455334343930016720517171971217636266916.0) in p
    ensures (61259517772702537880611469188204064126879208518,
             3215453593461425960611987298494385559511885300130936204675115439516779370492.0) in p
  {
    var e, x := Walk(p, 427094198651976259540344842774561673889945192655078505504941250475370961481.0,
        57896044618658097711785492504343953926634992332820282019728792003956564819949.0,
        55715206847437491779247892907918925,
        6549110976955184117405636693563754975455334343930016720517171971217636266916.0,
        Link(1.0, 0.0, 1.0, 1.0, 42532873960830155040291175100454154608398784018656757614686213500177675678669.0,
        Link(1.0, 1.0, 1.0, 0.0, 17594918541358062859687974302911580657972998141100381007557325450992553076171.0,
        Link(1.0, 1.0, 0.0, 0.0, 14461871592483881261971735660831462372461240489643981566949155844261368744243.0,
        Link(1.0, 1.0, 0.0, 1.0, 45796910907002135359556463008630531184017085385285995109024888162234071944365.0,
        Link(1.0, 0.0, 0.0, 1.0, 1247820739513428705333943914063554994307787498311081325790949607112222869199.0,
        Link(1.0, 0.0, 0.0, 1.0, 41927681362474810558901233770005482544224610147512712285175177604325912526055.0,
        Link(0.0, 0.0, 0.0, 1.0, 39832906640652820503726398585200022390171411614790194628717605134751221283506.0,
        Link(0.0, 1.0, 0.0, 0.0, 48246343998747768039029153989911253679638057025269545489768349315671039285941.0,
        Link(0.0, 1.0, 0.0, 0.0, 52151714678777916517093620022923185720340113327740698312847380521262070838775.0,
        Link(0.0, 1.0, 1.0, 0.0, 3215453593461425960611987298494385559511885300130936204675115439516779370492.0,
        End)))))))))));
  }

  lemma FieldSizeParte(p: iset<(nat, real)>)
    requires PowersOf(p, 427094198651976259540344842774561673889945192655078505504941250475370961481.0,
                      57896044618658097711785492504343953926634992332820282019728792003956564819949.0)
    requires (61259517772702537880611469188204064126879208518,
              3215453593461425960611987298494385559511885300130936204675115439516779370492.0) in p
    ensures (67355552103036969403757417637337119846203646753079645042692,
             24918802905425761976188496551454470664772191904275086604180514545327758295197.0) in p
  {
    var e, x := Walk(p, 427094198651976259540344842774561673889945192655078505504941250475370961481.0,
        57896044618658097711785492504343953926634992332820282019728792003956564819949.0,
        61259517772702537880611469188204064126879208518,
        3215453593461425960611987298494385559511885300130936204675115439516779370492.0,
        Link(0.0, 1.0, 1.0, 1.0, 152601542187853448978894384823834346382814296877938378035810330098204564735.0,
        Link(1.0, 0.0, 0.0, 1.0, 37609090340799994068413948117007459714616060363820694041986930964516200758593.0,
        Link(1.0, 1.0, 0.0, 0.0, 19164346660738055113289996435041320314018433960420067764502877733761829864140.0,
        Link(0.0, 0.0, 0.0, 1.0, 48875752355309939871757830869853963593084430361509727384008678131659470121529.0,
        Link(1.0, 0.0, 1.0, 0.0, 18188732937062113440335717743220533369331661120261128937912396591400134039392.0,
        Link(1.0, 1.0, 0.0, 1.0, 10883884111433223667315730906048902467283898482463509180944817238766197940663.0,
        Link(1.0, 1.0, 1.0, 1.0, 54169082321873428330638730529068421418942657738876193185681363403881165321328.0,
        Link(1.0, 0.0, 0.0, 0.0, 935023828440474665390859167682111444061825137272694832519694352493224515034.0,
        Link(0.0, 0.0, 0.0, 0.0, 19062982700936893164249770525031733872625842725087887329754823910341902028081.0,
        Link(0.0, 1.0, 0.0, 0.0, 24918802905425761976188496551454470664772191904275086604180514545327758295197.0,
        End)))))))))));
  }

  lemma FieldSizePartf(p: iset<(nat, real)>)
    requires PowersOf(p, 427094198651976259540344842774561673889945192655078505504941250475370961481.0,
                      57896044618658097711785492504343953926634992332820282019728792003956564819949.0)
    requires (67355552103036969403757417637337119846203646753079645042692,
              24918802905425761976188496551454470664772191904275086604180514545327758295197.0) in p
    ensures (74058212732561358302231226437062788676166966415465897661863160754340907, 1.0) in p
  {
    var e, x := Walk(p, 427094198651976259540344842774561673889945192655078505504941250475370961481.0,
        57896044618658097711785492504343953926634992332820282019728792003956564819949.0,
        67355552103036969403757417637337119846203646753079645042692,
        24918802905425761976188496551454470664772191904275086604180514545327758295197.0,
        Link(1.0, 0.0, 0.0, 0.0, 13994427115391014544897438931103655458000929880022612602248729650544166562111.0,
        Link(1.0, 0.0, 0.0, 1.0, 51741045559351665938260127113028283849658206032324741655895138422641520268587.0,
        Link(1.0, 0.0, 0.0, 0.0, 30540907675580387017385907791723119891251814306795054389219986041132346246446.0,
        Link(1.0, 1.0, 1.0, 1.0, 13647012101339909475706741026878740918802404762863524864323803974798575217813.0,
        Link(1.0, 0.0, 1.0, 1.0, 54093817427277148107869615290523170143429263543108894965662900100744228441816.0,
        Link(0.0, 0.0, 1.0, 0.0, 25560460532752166059024512366388919500430392815330470846198193266275789041883.0,
        Link(0.0, 0.0, 0.0, 0.0, 53552677005656845413702691491443330960070798694340688854194162040428712379468.0,
        Link(0.0, 1.0, 0.0, 0.0, 32114950556172515406831703024625072929990838741274810388106572087850143390736.0,
        Link(0.0, 0.0, 1.0, 0.0, 10615849756382961826258691359158727798145802165111405256613649610189885584471.0,
        Link(1.0, 0.0, 1.0, 1.0, 1.0,
        End)))))))))));
  }

  lemma FieldSize()
    ensures Prime(57896044618658097711785492504343953926634992332820282019728792003956564819949)
  {
    var p := AllPowers(427094198651976259540344842774561673889945192655078505504941250475370961481.0,
        57896044618658097711785492504343953926634992332820282019728792003956564819949.0);
    FieldSizeParta(p);
    FieldSizePartb(p);
    FieldSizePartc(p);
    FieldSizePartd(p);
    FieldSizeParte(p);
    FieldSizePartf(p);
    Factor4();
    Certified(p, 57896044618658097711785492504343953926634992332820282019728792003956564819949,
        427094198651976259540344842774561673889945192655078505504941250475370961481,
        74058212732561358302231226437062788676166966415465897661863160754340907,
        55540832096118778044507775605005710249233119951144946814680141076505643269084);
    PrimeByTwice(57896044618658097711785492504343953926634992332820282019728792003956564819949,
        74058212732561358302231226437062788676166966415465897661863160754340907, 1);
  }

  lemma P2551()
    ensures Prime(2551)
  {
    var p := AllPowers(2089.0, 2551.0);
    var e, x := Walk(p, 2089.0, 2551.0, 0, 1.0,
        Link(0.0, 0.0, 0.0, 1.0, 2089.0,
        Link(0.0, 0.0, 0.0, 1.0, 1.0,
        End)));
    SmallPrime(17);
    Certified(p, 2551, 2089, 17, 1135);
    PrimeByTwice(2551, 17, 2);
  }

  lemma Factor5()
    ensures Prime(1224481)
  {
    var p := AllPowers(921659.0, 1224481.0);
    var e, x := Walk(p, 921659.0, 1224481.0, 0, 1.0,
        Link(0.0, 0.0, 0.0, 0.0, 1.0,
        Link(1.0, 0.0, 0.0, 1.0, 1085945.0,
        Link(1.0, 1.0, 1.0, 1.0, 354866.0,
        Link(0.0, 1.0, 1.0, 1.0, 1.0,
        End)))));
    P2551();
    Certified(p, 1224481, 921659, 2551, 1100631);
    PrimeByTwice(1224481, 2551, 1);
  }

  lemma P3797()
    ensures Prime(3797)
  {
    var p := AllPowers(3565.0, 3797.0);
    var e, x := Walk(p, 3565.0, 3797.0, 0, 1.0,
        Link(0.0, 1.0, 0.0, 0.0, 3104.0,
        Link(1.0, 0.0, 0.0, 1.0, 1.0,
        End)));
    SmallPrime(73);
    Certified(p, 3797, 3565, 73, 3357);
    PrimeByTwice(3797, 73, 1);
  }

  lemma P531581()
    ensures Prime(531581)
  {
    var p := AllPowers(32301.0, 531581.0);
    var e, x := Walk(p, 32301.0, 531581.0, 0, 1.0,
        Link(0.0, 0.0, 0.0, 0.0, 1.0,
        Link(1.0, 1.0, 1.0, 0.0, 232380.0,
        Link(1.0, 1.0, 0.0, 1.0, 68714.0,
        Link(0.0, 1.0, 0.0, 1.0, 1.0,
        End)))));
    P3797();
    Certified(p, 531581, 32301, 3797, 50673);
    PrimeByTwice(531581, 3797, 1);
  }

  lemma Factor6()
    ensures Prime(1257559732178653)
  {
    var p1 := AllPowers(1252739704402215.0, 1257559732178653.0);
    var e1, x1 := Walk(p1, 1252739704402215.0, 1257559732178653.0, 0, 1.0,
        Link(0.0, 0.0, 0.0, 1.0, 1252739704402215.0,
        Link(0.0, 0.0, 1.0, 0.0, 754180678874553.0,
        Link(1.0, 0.0, 1.0, 0.0, 1062840351549867.0,
        Link(1.0, 1.0, 1.0, 1.0, 335944880383460.0,
        Link(0.0, 0.0, 1.0, 0.0, 897071262966172.0,
        Link(0.0, 0.0, 0.0, 1.0, 1.0,
        End)))))));
    Factor5();
    Certified(p1, 1257559732178653, 1252739704402215, 1224481, 790900187493841);
    var p2 := AllPowers(1139842034583224.0, 1257559732178653.0);
    var e2, x2 := Walk(p2, 1139842034583224.0, 1257559732178653.0, 0, 1.0,
        Link(0.0, 0.0, 0.0, 0.0, 1.0,
        Link(1.0, 0.0, 0.0, 0.0, 658053996960579.0,
        Link(0.0, 0.0, 0.0, 1.0, 1216608398631704.0,
        Link(1.0, 1.0, 0.0, 0.0, 752171299039830.0,
        Link(0.0, 1.0, 1.0, 1.0, 190863417531040.0,
        Link(1.0, 1.0, 0.0, 1.0, 1.0,
        End)))))));
    P531581();
    Certified(p2, 1257559732178653, 1139842034583224, 531581, 212927577457398);
    PrimeByPair(1257559732178653, 1224481, 531581);
  }

  lemma Factor7Parta(p: iset<(nat, real)>)
    requires PowersOf(p, 415787812636281767.0, 4434155615661930479.0)
    requires (0, 1.0) in p
    ensures (19188838686, 458810682590901301.0) in p
  {
    var e, x := Walk(p, 415787812636281767.0, 4434155615661930479.0, 0, 1.0,
        Link(0.0, 0.0, 0.0, 0.0, 1.0,
        Link(0.0, 1.0, 0.0, 0.0, 1773242256918920821.0,
        Link(0.0, 1.0, 1.0, 1.0, 214101093313304956.0,
        Link(0.0, 1.0, 1.0, 1.0, 1677242294580461517.0,
        Link(1.0, 0.0, 1.0, 1.0, 4159545457389586954.0,
        Link(1.0, 1.0, 1.0, 0.0, 701885220790377089.0,
        Link(0.0, 1.0, 1.0, 1.0, 2501186697341811662.0,
        Link(0.0, 0.0, 0.0, 1.0, 1755561346417838566.0,
        Link(0.0, 0.0, 0.0, 1.0, 3540191439498418012.0,
        Link(1.0, 1.0, 1.0, 0.0, 458810682590901301.0,
        End)))))))))));
  }

  lemma Factor7Partb(p: iset<(nat, real)>)
    requires PowersOf(p, 415787812636281767.0, 4434155615661930479.0)
    requires (19188838686, 458810682590901301.0) in p
    ensures (1257559732178653, 1.0) in p
  {
    var e, x := Walk(p, 415787812636281767.0, 4434155615661930479.0, 19188838686, 458810682590901301.0,
        Link(1.0, 1.0, 0.0, 0.0, 2223371858888708539.0,
        Link(1.0, 1.0, 1.0, 0.0, 1072781130921906861.0,
        Link(1.0, 1.0, 0.0, 1.0, 1059822737060017179.0,
        Link(1.0, 1.0, 0.0, 1.0, 1.0,
        End)))));
  }

  lemma Factor7()
    ensures Prime(4434155615661930479)
  {
    var p := AllPowers(415787812636281767.0, 4434155615661930479.0);
    Factor7Parta(p);
    Factor7Partb(p);
    Factor6();
    Certified(p, 4434155615661930479, 415787812636281767, 1257559732178653, 1010501025739283171);
    PrimeByTwice(4434155615661930479, 1257559732178653, 1);
  }

  lemma Factor8Parta(p: iset<(nat, real)>)
    requires PowersOf(p, 81982237619807054769897707.0, 172054593956031949258510691.0)
    requires (0, 1.0) in p
    ensures (264296270350, 19096673214781034833796235.0) in p
  {
    var e, x := Walk(p, 81982237619807054769897707.0, 172054593956031949258510691.0, 0, 1.0,
        Link(0.0, 0.0, 1.0, 1.0, 153579152715501658428629531.0,
        Link(1.0, 1.0, 0.0, 1.0, 154289148141410286668792477.0,
        Link(1.0, 0.0, 0.0, 0.0, 159143041489193602642851483.0,
        Link(1.0, 0.0, 0.0, 1.0, 102092554157199242347225069.0,
        Link(0.0, 1.0, 0.0, 0.0, 164598567888031770776243655.0,
        Link(1.0, 0.0, 0.0, 1.0, 47214200796341353487635316.0,
        Link(0.0, 0.0, 0.0, 0.0, 33022382191202836601619314.0,
        Link(1.0, 0.0, 1.0, 0.0, 40934084723838682207140931.0,
        Link(0.0, 0.0, 0.0, 0.0, 114022955710911814312406153.0,
        Link(1.0, 1.0, 1.0, 0.0, 19096673214781034833796235.0,
        End)))))))))));
  }

  lemma Factor8Partb(p: iset<(nat, real)>)
    requires PowersOf(p, 81982237619807054769897707.0, 172054593956031949258510691.0)
    requires (264296270350, 19096673214781034833796235.0) in p
    ensures (4434155615661930479, 1.0) in p
  {
    var e, x := Walk(p, 81982237619807054769897707.0, 172054593956031949258510691.0, 264296270350,
        19096673214781034833796235.0,
        Link(0.0, 1.0, 0.0, 1.0, 58802870777818717957471700.0,
        Link(0.0, 1.0, 0.0, 1.0, 106987526152441206875859902.0,
        Link(0.0, 0.0, 1.0, 1.0, 109731237503255908776026358.0,
        Link(0.0, 1.0, 1.0, 1.0, 2369291506058493784453998.0,
        Link(1.0, 1.0, 1.0, 0.0, 97556959874257394643084834.0,
        Link(1.0, 1.0, 1.0, 1.0, 1.0,
        End)))))));
  }

  lemma Factor8()
    ensures Prime(172054593956031949258510691)
  {
    var p := AllPowers(81982237619807054769897707.0, 172054593956031949258510691.0);
    Factor8Parta(p);
    Factor8Partb(p);
    Factor7();
    Certified(p, 172054593956031949258510691, 81982237619807054769897707, 4434155615661930479,
        154275350521713489305385904);
    PrimeByTwice(172054593956031949258510691, 4434155615661930479, 1);
  }

  lemma Factor9Parta(p: iset<(nat, real)>)
    requires PowersOf(p, 9148758478138211201771971577098600188172.0, 19757330305831588566944191468367130476339.0)
    requires (0, 1.0) in p
    ensures (611260709448, 8358531348907013068593886862012664615683.0) in p
  {
    var e, x := Walk(p, 9148758478138211201771971577098600188172.0, 19757330305831588566944191468367130476339.0, 0,
        1.0,
        Link(1.0, 0.0, 0.0, 0.0, 7186465123911483365735852593675917349660.0,
        Link(1.0, 1.0, 1.0, 0.0, 4026350534696373438513755681604920933671.0,
        Link(0.0, 1.0, 0.0, 1.0, 4570051278230293182343865036963093096940.0,
        Link(0.0, 0.0, 0.0, 1.0, 6578389329972392806944640871377324706129.0,
        Link(1.0, 1.0, 1.0, 1.0, 14306935111055188341908699466257956164563.0,
        Link(1.0, 0.0, 1.0, 0.0, 16758244956911997799956314712130823653202.0,
        Link(0.0, 0.0, 1.0, 1.0, 2445393720907838733323005951380984037488.0,
        Link(1.0, 0.0, 1.0, 0.0, 18757685180743459031793611964303916771297.0,
        Link(0.0, 1.0, 0.0, 0.0, 5525864191423685667108386084773996767855.0,
        Link(1.0, 0.0, 0.0, 0.0, 8358531348907013068593886862012664615683.0,
        End)))))))))));
  }

  lemma Factor9Partb(p: iset<(nat, real)>)
    requires PowersOf(p, 9148758478138211201771971577098600188172.0, 19757330305831588566944191468367130476339.0)
    requires (611260709448, 8358531348907013068593886862012664615683.0) in p
    ensures (672088257640749801791057, 3581058332261539785328547084402705870877.0) in p
  {
    var e, x := Walk(p, 9148758478138211201771971577098600188172.0, 19757330305831588566944191468367130476339.0,
        611260709448, 8358531348907013068593886862012664615683.0,
        Link(0.0, 0.0, 0.0, 0.0, 13258456566382802467363685986149708631668.0,
        Link(1.0, 1.0, 1.0, 1.0, 13560738092743535025475423230548543758937.0,
        Link(1.0, 0.0, 0.0, 0.0, 8656712996510835566909771721587016864562.0,
        Link(1.0, 0.0, 0.0, 1.0, 8267911451398568613595142388670423822990.0,
        Link(1.0, 1.0, 1.0, 1.0, 7907769673089166862526301954901284385436.0,
        Link(1.0, 0.0, 0.0, 1.0, 3690620876896704597439779200915200761344.0,
        Link(1.0, 1.0, 0.0, 1.0, 11573693506535883733031517569668909877170.0,
        Link(1.0, 1.0, 1.0, 0.0, 8802712626287945887266931270136476300888.0,
        Link(0.0, 1.0, 0.0, 1.0, 19398325626256179070939836239045433163874.0,
        Link(0.0, 0.0, 0.0, 1.0, 3581058332261539785328547084402705870877.0,
        End)))))))))));
  }

  lemma Factor9Partc(p: iset<(nat, real)>)
    requires PowersOf(p, 9148758478138211201771971577098600188172.0, 19757330305831588566944191468367130476339.0)
    requires (672088257640749801791057, 3581058332261539785328547084402705870877.0) in p
    ensures (172054593956031949258510691, 1.0) in p
  {
    var e, x := Walk(p, 9148758478138211201771971577098600188172.0, 19757330305831588566944191468367130476339.0,
        672088257640749801791057, 3581058332261539785328547084402705870877.0,
        Link(0.0, 1.0, 1.0, 0.0, 19735764202068961092870567181341045569426.0,
        Link(0.0, 0.0, 1.0, 1.0, 1.0,
        End)));
  }

  lemma Factor9()
    ensures Prime(19757330305831588566944191468367130476339)
  {
    var p := AllPowers(9148758478138211201771971577098600188172.0, 19757330305831588566944191468367130476339.0);
    Factor9Parta(p);
    Factor9Partb(p);
    Factor9Partc(p);
    Factor8();
    Certified(p, 19757330305831588566944191468367130476339, 9148758478138211201771971577098600188172,
        172054593956031949258510691, 16371654433361644093796961727196399386194);
    PrimeByTwice(19757330305831588566944191468367130476339, 172054593956031949258510691, 1);
  }

  lemma Factor10Parta(p: iset<(nat, real)>)
    requires PowersOf(p, 16384.0, 276602624281642239937218680557139826668747.0)
    requires (0, 1.0) in p
    ensures (249372567516, 229881456116400381587573961812243291111085.0) in p
  {
    var e, x := Walk(p, 16384.0, 276602624281642239937218680557139826668747.0, 0, 1.0,
        Link(0.0, 0.0, 1.0, 1.0, 4398046511104.0,
        Link(1.0, 0.0, 1.0, 0.0, 156582828171149672818525621127440707882630.0,
        Link(0.0, 0.0, 0.0, 0.0, 172957589150197174153788676534433232047177.0,
        Link(1.0, 1.0, 1.0, 1.0, 120378404327176040187716165883278090972766.0,
        Link(1.0, 1.0, 0.0, 0.0, 186287183198737183961899297779414230874639.0,
        Link(0.0, 0.0, 1.0, 1.0, 142771459008584795968674180506761950001830.0,
        Link(0.0, 1.0, 1.0, 0.0, 196079291540063951768178782995495790080626.0,
        Link(0.0, 1.0, 1.0, 1.0, 186356407135147162941413154352289170380992.0,
        Link(1.0, 1.0, 0.0, 1.0, 90724323459230079928976042398717969996625.0,
        Link(1.0, 1.0, 0.0, 0.0, 229881456116400381587573961812243291111085.0,
        End)))))))))));
  }

  lemma Factor10Partb(p: iset<(nat, real)>)
    requires PowersOf(p, 16384.0, 276602624281642239937218680557139826668747.0)
    requires (249372567516, 229881456116400381587573961812243291111085.0) in p
    ensures (274188037633232691943965, 143087957141878257663359918978866179224263.0) in p
  {
    var e, x := Walk(p, 16384.0, 276602624281642239937218680557139826668747.0, 249372567516,
        229881456116400381587573961812243291111085.0,
        Link(1.0, 1.0, 1.0, 1.0, 71527553180435404333214180810588199999093.0,
        Link(0.0, 0.0, 0.0, 0.0, 181934842475584728327876263625611063288207.0,
        Link(1.0, 1.0, 1.0, 1.0, 110417380625061043306774422962641759192131.0,
        Link(1.0, 1.0, 1.0, 1.0, 149457686695183284197034547590001369106938.0,
        Link(0.0, 0.0, 0.0, 0.0, 268452504038579681521689082691830230431543.0,
        Link(1.0, 0.0, 1.0, 0.0, 96354664049196546040056698114747314617762.0,
        Link(0.0, 1.0, 0.0, 1.0, 35654663631828388041913330874142546639773.0,
        Link(1.0, 0.0, 1.0, 0.0, 263287973105875784327824598646843455951951.0,
        Link(0.0, 0.0, 0.0, 1.0, 63551124034928179021495604716464890133866.0,
        Link(1.0, 1.0, 0.0, 1.0, 143087957141878257663359918978866179224263.0,
        End)))))))))));
  }

  lemma Factor10Partc(p: iset<(nat, real)>)
    requires PowersOf(p, 16384.0, 276602624281642239937218680557139826668747.0)
    requires (274188037633232691943965, 143087957141878257663359918978866179224263.0) in p
    ensures (301472935574822823592288077825426185, 247866017529519058846923317403828917100900.0) in p
  {
    var e, x := Walk(p, 16384.0, 276602624281642239937218680557139826668747.0, 274188037633232691943965,
        143087957141878257663359918978866179224263.0,
        Link(1.0, 0.0, 1.0, 1.0, 140575148997689222928575529700417903677066.0,
        Link(0.0, 0.0, 0.0, 0.0, 27516400033870082315037385751401701920636.0,
        Link(1.0, 0.0, 1.0, 1.0, 136411886994887432043930000864286822850871.0,
        Link(0.0, 0.0, 0.0, 1.0, 99606543952774213355950656885246057676686.0,
        Link(1.0, 0.0, 1.0, 1.0, 184199328216248245857240550437986209313.0,
        Link(0.0, 1.0, 1.0, 1.0, 225312678908765566550544193828568748240710.0,
        Link(1.0, 1.0, 0.0, 0.0, 121323298363596403230161203681922455518920.0,
        Link(0.0, 0.0, 1.0, 1.0, 60736295561698986065304732445552701020865.0,
        Link(0.0, 0.0, 0.0, 0.0, 273741103136643191388210911203503990027780.0,
        Link(1.0, 0.0, 0.0, 1.0, 247866017529519058846923317403828917100900.0,
        End)))))))))));
  }

  lemma Factor10Partd(p: iset<(nat, real)>)
    requires PowersOf(p, 16384.0, 276602624281642239937218680557139826668747.0)
    requires (301472935574822823592288077825426185, 247866017529519058846923317403828917100900.0) in p
    ensures (19757330305831588566944191468367130476339, 1.0) in p
  {
    var e, x := Walk(p, 16384.0, 276602624281642239937218680557139826668747.0, 301472935574822823592288077825426185,
        247866017529519058846923317403828917100900.0,
        Link(0.0, 0.0, 1.0, 1.0, 160304567724279928812005931947734984056485.0,
        Link(1.0, 1.0, 1.0, 1.0, 141169181970303267694176702739033264996321.0,
        Link(0.0, 0.0, 1.0, 1.0, 207595485312986244222344616224181746620700.0,
        Link(0.0, 0.0, 1.0, 1.0, 1.0,
        End)))));
  }

  lemma Factor10()
    ensures Prime(276602624281642239937218680557139826668747)
  {
    var p := AllPowers(16384.0, 276602624281642239937218680557139826668747.0);
    Factor10Parta(p);
    Factor10Partb(p);
    Factor10Partc(p);
    Factor10Partd(p);
    Factor9();
    Certified(p, 276602624281642239937218680557139826668747, 16384, 19757330305831588566944191468367130476339,
        94074944912245044309966580483695483989395);
    PrimeByTwice(276602624281642239937218680557139826668747, 19757330305831588566944191468367130476339, 1);
  }

  lemma GroupOrderParta(p: iset<(nat, real)>)
    requires PowersOf(p, 2975531125133123119648879457563281269120703404158613135195788908093573672641.0,
                      7237005577332262213973186563042994240857116359379907606001950938285454250989.0)
    requires (0, 1.0) in p
    ensures (13637562286, 5470573762597613452518301541285217260694163667102453414694111630309308137397.0) in p
  {
    var e, x := Walk(p, 2975531125133123119648879457563281269120703404158613135195788908093573672641.0,
        7237005577332262213973186563042994240857116359379907606001950938285454250989.0, 0, 1.0,
        Link(0.0, 0.0, 0.0, 0.0, 1.0,
        Link(0.0, 0.0, 1.0, 1.0, 3665235763280526279908536420599828886736543928067072603103294819968044667087.0,
        Link(0.0, 0.0, 1.0, 0.0, 7175938532651233903748682442707025085440801865718631403814725555505715236145.0,
        Link(1.0, 1.0, 0.0, 0.0, 6207530265682898525770647841602741158668051929211741291680926422922192217409.0,
        Link(1.0, 1.0, 0.0, 1.0, 2373096510333686718966938841103364010878955140374695579704181567728478764382.0,
        Link(1.0, 1.0, 0.0, 0.0, 960028914461910659853818081051779040975436451011166430819809887532753398109.0,
        Link(1.0, 0.0, 1.0, 0.0, 31012265291365030753547563406996299953448142391039883343334817870986964752.0,
        Link(1.0, 1.0, 1.0, 1.0, 2760896271589094641256962135464800424419427770653358600175313710813182187103.0,
        Link(1.0, 0.0, 1.0, 0.0, 7232046672972164392716347785116782272069947763230477244222753543362230759150.0,
        Link(1.0, 1.0, 1.0, 0.0, 5470573762597613452518301541285217260694163667102453414694111630309308137397.0,
        End)))))))))));
  }

  lemma GroupOrderPartb(p: iset<(nat, real)>)
    requires PowersOf(p, 2975531125133123119648879457563281269120703404158613135195788908093573672641.0,
                      7237005577332262213973186563042994240857116359379907606001950938285454250989.0)
    requires (13637562286, 5470573762597613452518301541285217260694163667102453414694111630309308137397.0) in p
    ensures (14994658308067412840685,
             4814489234450794997775462157635832024044394994990440081038285557998157235378.0) in p
  {
    var e, x := Walk(p, 2975531125133123119648879457563281269120703404158613135195788908093573672641.0,
        7237005577332262213973186563042994240857116359379907606001950938285454250989.0, 13637562286,
        5470573762597613452518301541285217260694163667102453414694111630309308137397.0,
        Link(0.0, 0.0, 0.0, 1.0, 2277625253387548773050836222144282001429162223638617787819795107505666852900.0,
        Link(0.0, 1.0, 0.0, 1.0, 5068113050575366065211048013365614901180335073665548033998180864435499602813.0,
        Link(0.0, 0.0, 1.0, 0.0, 313295167023036127677692683007909182448531532354115392544593201192198975498.0,
        Link(1.0, 1.0, 0.0, 1.0, 462477126691646604852233844056087044348329091629879729366238054346830152651.0,
        Link(1.0, 1.0, 1.0, 1.0, 1296534272086845583837664037449927365436482738856045993470301139685861520644.0,
        Link(0.0, 0.0, 1.0, 0.0, 1328035523556881608489263363901372640252801584734533986571099052849634959140.0,
        Link(1.0, 0.0, 0.0, 1.0, 411825343483996257611815539872320170345517991326091655106628756551513621766.0,
        Link(0.0, 0.0, 0.0, 0.0, 5783831035136462902736562723384550844154587593134393782326140327927951970163.0,
        Link(1.0, 1.0, 1.0, 0.0, 1655621807837006465932773618913923224169161433653386660467148861137362138909.0,
        Link(1.0, 1.0, 0.0, 1.0, 4814489234450794997775462157635832024044394994990440081038285557998157235378.0,
        End)))))))))));
  }

  lemma GroupOrderPartc(p: iset<(nat, real)>)
    requires PowersOf(p, 2975531125133123119648879457563281269120703404158613135195788908093573672641.0,
                      7237005577332262213973186563042994240857116359379907606001950938285454250989.0)
    requires (14994658308067412840685,
              4814489234450794997775462157635832024044394994990440081038285557998157235378.0) in p
    ensures (16486801164248123165203254256077994,
             6131467129197495414970832159506060552218038931497891780818705387348542296172.0) in p
  {
    var e, x := Walk(p, 2975531125133123119648879457563281269120703404158613135195788908093573672641.0,
        7237005577332262213973186563042994240857116359379907606001950938285454250989.0, 14994658308067412840685,
        4814489234450794997775462157635832024044394994990440081038285557998157235378.0,
        Link(1.0, 0.0, 0.0, 1.0, 145576197706388446385893457198334689586900576946925209569102000123920416682.0,
        Link(1.0, 1.0, 1.0, 1.0, 1634748694155654526929866670586332761474284327209465085384214812600691698804.0,
        Link(1.0, 0.0, 1.0, 0.0, 6011524715131614611361876334011909288835080468181780963744648963913892439419.0,
        Link(1.0, 0.0, 0.0, 1.0, 400934171919470011904101983247044467996775968726298184916411961360045511893.0,
        Link(1.0, 0.0, 1.0, 1.0, 6902489249525100973640825952337627475852702965359600519553582588475731061499.0,
        Link(1.0, 0.0, 0.0, 0.0, 2949325410373890190800257305559786875344888621327205062891411237085095917467.0,
        Link(0.0, 0.0, 0.0, 0.0, 3041283684093752129064944244956083837717697560019017553972313346412005839204.0,
        Link(1.0, 1.0, 0.0, 0.0, 2401245403296034540885638008628402679457861095487132852146354580796108352545.0,
        Link(1.0, 0.0, 1.0, 0.0, 1553866316766494876938242830088053282898575006076915692719743810430571984465.0,
        Link(1.0, 0.0, 1.0, 0.0, 6131467129197495414970832159506060552218038931497891780818705387348542296172.0,
        End)))))))))));
  }

  lemma GroupOrderPartd(p: iset<(nat, real)>)
    requires PowersOf(p, 2975531125133123119648879457563281269120703404158613135195788908093573672641.0,
                      7237005577332262213973186563042994240857116359379907606001950938285454250989.0)
    requires (16486801164248123165203254256077994,
              6131467129197495414970832159506060552218038931497891780818705387348542296172.0) in p
    ensures (276602624281642239937218680557139826668747, 1.0) in p
  {
    var e, x := Walk(p, 2975531125133123119648879457563281269120703404158613135195788908093573672641.0,
        7237005577332262213973186563042994240857116359379907606001950938285454250989.0,
        16486801164248123165203254256077994,
        6131467129197495414970832159506060552218038931497891780818705387348542296172.0,
        Link(1.0, 0.0, 0.0, 0.0, 3809468180146359459910186183693433351054705470360220535066658019739849137890.0,
        Link(0.0, 0.0, 0.0, 1.0, 4057725582371205017849475535164214452523009504820076776613830697808913246494.0,
        Link(0.0, 1.0, 1.0, 1.0, 7071431110398115835782137419425204145035260496960588362887213967186149410889.0,
        Link(0.0, 1.0, 0.0, 0.0, 569720305635546515374361406811570794840498633234037072277253241505365496414.0,
        Link(1.0, 1.0, 0.0, 0.0, 7129266507327595520505310256887840710655029161937432501048032358036505841461.0,
        Link(1.0, 0.0, 1.0, 1.0, 1.0,
        End)))))));
  }

  lemma GroupOrder()
    ensures Prime(7237005577332262213973186563042994240857116359379907606001950938285454250989)
  {
    var p := AllPowers(2975531125133123119648879457563281269120703404158613135195788908093573672641.0,
        7237005577332262213973186563042994240857116359379907606001950938285454250989.0);
    GroupOrderParta(p);
    GroupOrderPartb(p);
    GroupOrderPartc(p);
    GroupOrderPartd(p);
    Factor10();
    Certified(p, 7237005577332262213973186563042994240857116359379907606001950938285454250989,
        2975531125133123119648879457563281269120703404158613135195788908093573672641,
        276602624281642239937218680557139826668747,
        2233364593245673852815932892735013076939656528578070433728021143254617821614);
    PrimeByTwice(7237005577332262213973186563042994240857116359379907606001950938285454250989,
        276602624281642239937218680557139826668747, 1);
  }

  lemma QuarterPowera(p: iset<(nat, real)>)
    requires PowersOf(p, 2.0, 57896044618658097711785492504343953926634992332820282019728792003956564819949.0)
    requires (0, 1.0) in p
    ensures (137438953471, 45194746422429305393991597713404774341842436791187289784139113732634335346156.0) in p
  {
    var e, x := Walk(p, 2.0, 57896044618658097711785492504343953926634992332820282019728792003956564819949.0, 0, 1.0,
        Link(0.0, 0.0, 0.0, 1.0, 2.0,
        Link(1.0, 1.0, 1.0, 1.0, 2147483648.0,
        Link(1.0, 1.0, 1.0, 1.0, 722.0,
        Link(1.0, 1.0, 1.0, 1.0, 178667308897216803844041172019681532254433604272128.0,
        Link(1.0, 1.0, 1.0, 1.0, 6282583251470661375988401844536932193162997771953941038931304321688160879093.0,
        Link(1.0, 1.0, 1.0, 1.0, 29965682538202139238154452199528621436240239400679311591035909128474666598167.0,
        Link(1.0, 1.0, 1.0, 1.0, 55874371979775216649385573191891013441786433360772204296104158392582684667764.0,
        Link(1.0, 1.0, 1.0, 1.0, 831549168060017679827524564160905062311858293960840749036373044768214189412.0,
        Link(1.0, 1.0, 1.0, 1.0, 31330852820456173428782778976368283529963853047524718861656227614838005523729.0,
        Link(1.0, 1.0, 1.0, 1.0, 45194746422429305393991597713404774341842436791187289784139113732634335346156.0,
        End)))))))))));
  }

  lemma QuarterPowerb(p: iset<(nat, real)>)
    requires PowersOf(p, 2.0, 57896044618658097711785492504343953926634992332820282019728792003956564819949.0)
    requires (137438953471, 45194746422429305393991597713404774341842436791187289784139113732634335346156.0) in p
    ensures (151115727451828646838271,
             544734975573418274629760138647082823830392536981593142938960017249991458010.0) in p
  {
    var e, x := Walk(p, 2.0, 57896044618658097711785492504343953926634992332820282019728792003956564819949.0,
        137438953471, 45194746422429305393991597713404774341842436791187289784139113732634335346156.0,
        Link(1.0, 1.0, 1.0, 1.0, 12725503070822417001986919429249837080124537636621394363448261139776490441667.0,
        Link(1.0, 1.0, 1.0, 1.0, 31618672342086410660348971369570541766697605926830740459969996597839974999480.0,
        Link(1.0, 1.0, 1.0, 1.0, 25208240221263666284244628749673508130280695788255750471349331134717349793909.0,
        Link(1.0, 1.0, 1.0, 1.0, 44642026779291232422354173453679535107134480188421520711687674042532114506526.0,
        Link(1.0, 1.0, 1.0, 1.0, 51233491304434306593820827809579342932574496836920566022732946117164516405071.0,
        Link(1.0, 1.0, 1.0, 1.0, 28310783642159936751895284043735237400895841602549197481456743190793174377435.0,
        Link(1.0, 1.0, 1.0, 1.0, 50961823044044079682291874088886034062798460829831489998068398232543870548501.0,
        Link(1.0, 1.0, 1.0, 1.0, 57140289167386179571914958435061541047398071664847524067297069223469617526842.0,
        Link(1.0, 1.0, 1.0, 1.0, 32701138785477294685022258595473138323480591694189213720300681212597505534727.0,
        Link(1.0, 1.0, 1.0, 1.0, 544734975573418274629760138647082823830392536981593142938960017249991458010.0,
        End)))))))))));
  }

  lemma QuarterPowerc(p: iset<(nat, real)>)
    requires PowersOf(p, 2.0, 57896044618658097711785492504343953926634992332820282019728792003956564819949.0)
    requires (151115727451828646838271,
              544734975573418274629760138647082823830392536981593142938960017249991458010.0) in p
    ensures (166153499473114484112975882535043071,
             52983284024645604748356606426061694763976161113936548640232552828396605328781.0) in p
  {
    var e, x := Walk(p, 2.0, 57896044618658097711785492504343953926634992332820282019728792003956564819949.0,
        151115727451828646838271, 544734975573418274629760138647082823830392536981593142938960017249991458010.0,
        Link(1.0, 1.0, 1.0, 1.0, 43765620297419971205843694015456769443004566965438152645146172353629561008700.0,
        Link(1.0, 1.0, 1.0, 1.0, 34173355633475482035240025096660577257963197104544359244241478442929630901715.0,
        Link(1.0, 1.0, 1.0, 1.0, 10078996197941591827521117654050648724757670787365913398510810294488290330678.0,
        Link(1.0, 1.0, 1.0, 1.0, 46946574363901951083065463873840241654700729642342945764501467377662918674888.0,
        Link(1.0, 1.0, 1.0, 1.0, 31033228444585348421315759418180536040465828339768681257889441578444681097249.0,
        Link(1.0, 1.0, 1.0, 1.0, 24977296195056901874042652720105099310444481248060662814903730573525270877231.0,
        Link(1.0, 1.0, 1.0, 1.0, 12388985866120953976310377947444982970384487555830578790313727805310640105311.0,
        Link(1.0, 1.0, 1.0, 1.0, 7165800087628305419906348963162552686507119412646729856902501367281806014393.0,
        Link(1.0, 1.0, 1.0, 1.0, 57587431105925644872911601351995929038311179672182140389836888104460665624418.0,
        Link(1.0, 1.0, 1.0, 1.0, 52983284024645604748356606426061694763976161113936548640232552828396605328781.0,
        End)))))))))));
  }

  lemma QuarterPowerd(p: iset<(nat, real)>)
    requires PowersOf(p, 2.0, 57896044618658097711785492504343953926634992332820282019728792003956564819949.0)
    requires (166153499473114484112975882535043071,
              52983284024645604748356606426061694763976161113936548640232552828396605328781.0) in p
    ensures (182687704666362864775460604089535377456991567871,
             23310579803174567687392393518795196592504696180061856406369418281530699461788.0) in p
  {
    var e, x := Walk(p, 2.0, 57896044618658097711785492504343953926634992332820282019728792003956564819949.0,
        166153499473114484112975882535043071,
        52983284024645604748356606426061694763976161113936548640232552828396605328781.0,
        Link(1.0, 1.0, 1.0, 1.0, 4043360565791032338078027380609862533945144841446388649871217817879889873478.0,
        Link(1.0, 1.0, 1.0, 1.0, 33670049901019569500871006427074058907676259723424101617658397332857683009187.0,
        Link(1.0, 1.0, 1.0, 1.0, 4187519072817056328568485486024279769409738840626811667464950563644469086640.0,
        Link(1.0, 1.0, 1.0, 1.0, 31135492015806444414737471008134301620896546760764129796378474588803284032539.0,
        Link(1.0, 1.0, 1.0, 1.0, 17648620390273356357020134462309692498714675943790013590705331000182812092417.0,
        Link(1.0, 1.0, 1.0, 1.0, 9071231205899977564151271366498780104845740454626553539977526889129436116728.0,
        Link(1.0, 1.0, 1.0, 1.0, 57536954078394898341561058596771979671434564551776157719280604183017138807529.0,
        Link(1.0, 1.0, 1.0, 1.0, 35757025066575975253653098954451781796433373486781824308350643199978034955497.0,
        Link(1.0, 1.0, 1.0, 1.0, 55362729019363284635602246820605937821515778654018841355971440409296941798951.0,
        Link(1.0, 1.0, 1.0, 1.0, 23310579803174567687392393518795196592504696180061856406369418281530699461788.0,
        End)))))))))));
  }

  lemma QuarterPowere(p: iset<(nat, real)>)
    requires PowersOf(p, 2.0, 57896044618658097711785492504343953926634992332820282019728792003956564819949.0)
    requires (182687704666362864775460604089535377456991567871,
              23310579803174567687392393518795196592504696180061856406369418281530699461788.0) in p
    ensures (200867255532373784442745261542645325315275374222849104412671,
             45479349884507628301698123796250445596652345077353159483318819597649710961920.0) in p
  {
    var e, x := Walk(p, 2.0, 57896044618658097711785492504343953926634992332820282019728792003956564819949.0,
        182687704666362864775460604089535377456991567871,
        23310579803174567687392393518795196592504696180061856406369418281530699461788.0,
        Link(1.0, 1.0, 1.0, 1.0, 26581867791059424736998914131786935395247100185720215298147869473475247466289.0,
        Link(1.0, 1.0, 1.0, 1.0, 27935597705990857044596004281158840715176448634484849678803416174709500393307.0,
        Link(1.0, 1.0, 1.0, 1.0, 15684242169343610675938633510107053195079618631387286693842602453664090877259.0,
        Link(1.0, 1.0, 1.0, 1.0, 14027931116174711974312877722162477075845082495311616644575421411282769600147.0,
        Link(1.0, 1.0, 1.0, 1.0, 684614496836416649787906379392285011927598899598562528098251400672931668907.0,
        Link(1.0, 1.0, 1.0, 1.0, 29769714498032076210166807474819013544447509023848694974789569031297101857592.0,
        Link(1.0, 1.0, 1.0, 1.0, 37008626383577036881806629661822850263240381849752111154573360970710289084464.0,
        Link(1.0, 1.0, 1.0, 1.0, 24233097835806840212876053465345452678284176986654458383856149761728159806764.0,
        Link(1.0, 1.0, 1.0, 1.0, 51112254427615305009901759741924517510279757244838123682606985713533983665105.0,
        Link(1.0, 1.0, 1.0, 1.0, 45479349884507628301698123796250445596652345077353159483318819597649710961920.0,
        End)))))))))));
  }

  lemma QuarterPowerf(p: iset<(nat, real)>)
    requires PowersOf(p, 2.0, 57896044618658097711785492504343953926634992332820282019728792003956564819949.0)
    requires (200867255532373784442745261542645325315275374222849104412671,
              45479349884507628301698123796250445596652345077353159483318819597649710961920.0) in p
    ensures (220855883097298041197912187592864814478435487109452369765200775161577471,
             33882242112267496923536051823032213047892495906645674409515910817898777107257.0) in p
  {
    var e, x := Walk(p, 2.0, 57896044618658097711785492504343953926634992332820282019728792003956564819949.0,
        200867255532373784442745261542645325315275374222849104412671,
        45479349884507628301698123796250445596652345077353159483318819597649710961920.0,
        Link(1.0, 1.0, 1.0, 1.0, 11056534755336441226498492808108261289195462485940569264063461083603937863743.0,
        Link(1.0, 1.0, 1.0, 1.0, 16016535929395975659978764171596312767014544623914800237889741581420795887397.0,
        Link(1.0, 1.0, 1.0, 1.0, 24779736756518239262134786564833979098176951288651987557576585047857040035462.0,
        Link(1.0, 1.0, 1.0, 1.0, 17144314256986813274476140473712444112177023766797766200554335356044944813034.0,
        Link(1.0, 1.0, 1.0, 1.0, 40708934432730130651322167211264057559822842830536907232677053187710079408055.0,
        Link(1.0, 1.0, 1.0, 1.0, 23831477938961091992659029161882590259549528906548330511742067278450904634668.0,
        Link(1.0, 1.0, 1.0, 1.0, 52690110670145470389354969733677398040905379530483294791374464377200528971309.0,
        Link(1.0, 1.0, 1.0, 1.0, 19503180772758402817567362257769427592749798537153604074569836368588198394859.0,
        Link(1.0, 1.0, 1.0, 1.0, 2057919991675863527054010271309791625846740817386352880445591432005900891303.0,
        Link(1.0, 1.0, 1.0, 1.0, 33882242112267496923536051823032213047892495906645674409515910817898777107257.0,
        End)))))))))));
  }

  lemma QuarterPowerg(p: iset<(nat, real)>)
    requires PowersOf(p, 2.0, 57896044618658097711785492504343953926634992332820282019728792003956564819949.0)
    requires (220855883097298041197912187592864814478435487109452369765200775161577471,
              33882242112267496923536051823032213047892495906645674409515910817898777107257.0) in p
    ensures (14474011154664524427946373126085988481658748083205070504932198000989141204987,
             19681161376707505956807079304988542015446066515923890162744021073123829784752.0) in p
  {
    var e, x := Walk(p, 2.0, 57896044618658097711785492504343953926634992332820282019728792003956564819949.0,
        220855883097298041197912187592864814478435487109452369765200775161577471,
        33882242112267496923536051823032213047892495906645674409515910817898777107257.0,
        Link(1.0, 1.0, 1.0, 1.0, 37551472053155023094598280749600284614585691400890565658685849766312449902312.0,
        Link(1.0, 1.0, 1.0, 1.0, 30348741544180654946814210571832604891148323009090688159164939748200445802373.0,
        Link(1.0, 1.0, 1.0, 1.0, 25910928650365661088611546722392363794011740157349981708915610625600295625773.0,
        Link(1.0, 0.0, 1.0, 1.0, 19681161376707505956807079304988542015446066515923890162744021073123829784752.0,
        End)))));
  }
}
