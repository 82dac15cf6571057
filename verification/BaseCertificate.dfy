/** Literal witnesses that the base point has order L: each path lists the points it reaches. */
module BaseCertificate {
  import opened Edwards
  import opened BasePoint

  /** The points that are added on the way: odd multiples of the base point, and its double. */
  ghost predicate Windows(p: iset<(nat, real, real)>) {
    && (1, 15112221349535400772501151409588531511454012693041857206046113283949847762202.0,
        46316835694926478169428394003475163141307993866256225615783033603165251855960.0) in p
    && (2, 24727413235106541002554574571675588834622768167397638456726423682521233608206.0,
        15549675580280190176352668710449542251549572066445060580507079593062643049417.0) in p
    && (3, 46896733464454938657123544595386787789046198280132665686241321779790909858396.0,
        8324843778533443976490377120369201138301417226297555316741202210403726505172.0) in p
    && (5, 33467004535436536005251147249499675200073690106659565782908757308821616914995.0,
        43097193783671926753355113395909008640284023746042808659097434958891230611693.0) in p
    && (7, 9199134265559022971505535402808359556995554859516252602543778295037484220679.0,
        22512087849695599276028560866629687720820254811233262850576678203618951717560.0) in p
    && (9, 24193060302538010417230488029838514081720802923509845138863968807030823940444.0,
        57551756252899625001155759838357770487605224608455116862194664796369308545472.0) in p
    && (11, 9451145793506787353375160377761530931587019091193333050860601958827395183563.0,
        20609402718286069808115703540855311742885093522056241285814584245966805874451.0) in p
    && (13, 7442235066513780790779899786332475485840754593728627195931759107337804079085.0,
        8529785864514984411577036536286432879603480171865651918962709025066066124672.0) in p
    && (15, 35771902585589234259498423420223840099331465042459337605611172842168536632769.0,
        8502034780705657720897159939055122322178084209392286764802307224484658961631.0) in p
  }

  ghost predicate Multiples(p: iset<(nat, real, real)>, c: Params, base: Point) {
    MultiplesOf(p, c, base, 57896044618658097711785492504343953926634992332820282019728792003956564819949.0,
                37095705934669439343138083508754565189542113879843219016388785533085940283555.0)
  }

  lemma WindowsReached(p: iset<(nat, real, real)>, c: Params, base: Point)
    requires Multiples(p, c, base)
    requires (1, 15112221349535400772501151409588531511454012693041857206046113283949847762202.0,
              46316835694926478169428394003475163141307993866256225615783033603165251855960.0) in p
    ensures Windows(p)
  {
    Travel(p, c, base, 57896044618658097711785492504343953926634992332820282019728792003956564819949.0,
      37095705934669439343138083508754565189542113879843219016388785533085940283555.0,
      1,
      15112221349535400772501151409588531511454012693041857206046113283949847762202.0,
      46316835694926478169428394003475163141307993866256225615783033603165251855960.0,
      Double(24727413235106541002554574571675588834622768167397638456726423682521233608206.0,
          15549675580280190176352668710449542251549572066445060580507079593062643049417.0, Stop));
    Travel(p, c, base, 57896044618658097711785492504343953926634992332820282019728792003956564819949.0,
      37095705934669439343138083508754565189542113879843219016388785533085940283555.0,
      1,
      15112221349535400772501151409588531511454012693041857206046113283949847762202.0,
      46316835694926478169428394003475163141307993866256225615783033603165251855960.0,
      Plus(2, 24727413235106541002554574571675588834622768167397638456726423682521233608206.0,
          15549675580280190176352668710449542251549572066445060580507079593062643049417.0,
          46896733464454938657123544595386787789046198280132665686241321779790909858396.0,
          8324843778533443976490377120369201138301417226297555316741202210403726505172.0, Stop));
    Travel(p, c, base, 57896044618658097711785492504343953926634992332820282019728792003956564819949.0,
      37095705934669439343138083508754565189542113879843219016388785533085940283555.0,
      3,
      46896733464454938657123544595386787789046198280132665686241321779790909858396.0,
      8324843778533443976490377120369201138301417226297555316741202210403726505172.0,
      Plus(2, 24727413235106541002554574571675588834622768167397638456726423682521233608206.0,
          15549675580280190176352668710449542251549572066445060580507079593062643049417.0,
          33467004535436536005251147249499675200073690106659565782908757308821616914995.0,
          43097193783671926753355113395909008640284023746042808659097434958891230611693.0, Stop));
    Travel(p, c, base, 57896044618658097711785492504343953926634992332820282019728792003956564819949.0,
      37095705934669439343138083508754565189542113879843219016388785533085940283555.0,
      5,
      33467004535436536005251147249499675200073690106659565782908757308821616914995.0,
      43097193783671926753355113395909008640284023746042808659097434958891230611693.0,
      Plus(2, 24727413235106541002554574571675588834622768167397638456726423682521233608206.0,
          15549675580280190176352668710449542251549572066445060580507079593062643049417.0,
          9199134265559022971505535402808359556995554859516252602543778295037484220679.0,
          22512087849695599276028560866629687720820254811233262850576678203618951717560.0, Stop));
    Travel(p, c, base, 57896044618658097711785492504343953926634992332820282019728792003956564819949.0,
      37095705934669439343138083508754565189542113879843219016388785533085940283555.0,
      7,
      9199134265559022971505535402808359556995554859516252602543778295037484220679.0,
      22512087849695599276028560866629687720820254811233262850576678203618951717560.0,
      Plus(2, 24727413235106541002554574571675588834622768167397638456726423682521233608206.0,
          15549675580280190176352668710449542251549572066445060580507079593062643049417.0,
          24193060302538010417230488029838514081720802923509845138863968807030823940444.0,
          57551756252899625001155759838357770487605224608455116862194664796369308545472.0, Stop));
    Travel(p, c, base, 57896044618658097711785492504343953926634992332820282019728792003956564819949.0,
      37095705934669439343138083508754565189542113879843219016388785533085940283555.0,
      9,
      24193060302538010417230488029838514081720802923509845138863968807030823940444.0,
      57551756252899625001155759838357770487605224608455116862194664796369308545472.0,
      Plus(2, 24727413235106541002554574571675588834622768167397638456726423682521233608206.0,
          15549675580280190176352668710449542251549572066445060580507079593062643049417.0,
          9451145793506787353375160377761530931587019091193333050860601958827395183563.0,
          20609402718286069808115703540855311742885093522056241285814584245966805874451.0, Stop));
    Travel(p, c, base, 57896044618658097711785492504343953926634992332820282019728792003956564819949.0,
      37095705934669439343138083508754565189542113879843219016388785533085940283555.0,
      11,
      9451145793506787353375160377761530931587019091193333050860601958827395183563.0,
      20609402718286069808115703540855311742885093522056241285814584245966805874451.0,
      Plus(2, 24727413235106541002554574571675588834622768167397638456726423682521233608206.0,
          15549675580280190176352668710449542251549572066445060580507079593062643049417.0,
          7442235066513780790779899786332475485840754593728627195931759107337804079085.0,
          8529785864514984411577036536286432879603480171865651918962709025066066124672.0, Stop));
    Travel(p, c, base, 57896044618658097711785492504343953926634992332820282019728792003956564819949.0,
      37095705934669439343138083508754565189542113879843219016388785533085940283555.0,
      13,
      7442235066513780790779899786332475485840754593728627195931759107337804079085.0,
      8529785864514984411577036536286432879603480171865651918962709025066066124672.0,
      Plus(2, 24727413235106541002554574571675588834622768167397638456726423682521233608206.0,
          15549675580280190176352668710449542251549572066445060580507079593062643049417.0,
          35771902585589234259498423420223840099331465042459337605611172842168536632769.0,
          8502034780705657720897159939055122322178084209392286764802307224484658961631.0, Stop));
  }

  lemma Stretch1(p: iset<(nat, real, real)>, c: Params, base: Point)
    requires Multiples(p, c, base) && Windows(p)
    requires (1, 15112221349535400772501151409588531511454012693041857206046113283949847762202.0,
              46316835694926478169428394003475163141307993866256225615783033603165251855960.0) in p
    ensures (256, 42740085206947573681423002599456489563927820004573071834350074001818321593686.0,
             6935684722522267618220753829624209639984359598320562595061366101608187623111.0) in p
  {
    Travel(p, c, base, 57896044618658097711785492504343953926634992332820282019728792003956564819949.0,
      37095705934669439343138083508754565189542113879843219016388785533085940283555.0,
      1,
      15112221349535400772501151409588531511454012693041857206046113283949847762202.0,
      46316835694926478169428394003475163141307993866256225615783033603165251855960.0,
      Double(24727413235106541002554574571675588834622768167397638456726423682521233608206.0,
          15549675580280190176352668710449542251549572066445060580507079593062643049417.0,
      Double(14582954232372986451776170844943001818709880559417862259286374126315108956272.0,
          32483318716863467900234833297694612235682047836132991208333042722294373421359.0,
      Double(46706390780465557264338673484185971070529246228527338942042475661633188627656.0,
          15299170165656271974649334809062094114079726227711063015095704409550798436788.0,
      Double(16121637619009607773439840283436156467545443443832420589584197780484295031288.0,
          50925107901044861941301590032293890690813323578124472818968980802518735333355.0,
      Double(26148317933504540005443173402042326458672162458767831815669826413036406984486.0,
          30850316547316149219369061290562558254923949145644564178378051444253659681385.0,
      Double(2703967047724422927942795606844806438471095130334849099131707700624039388171.0,
          27636351750987415494008535949645960827550590090960186204735008729987540453670.0,
      Double(25155917782814837260398069725241853231864729763246304429004555936282046356871.0,
          18508826420441071939750277538143617204571229748311242415842946762595677996796.0,
      Double(42740085206947573681423002599456489563927820004573071834350074001818321593686.0,
          6935684722522267618220753829624209639984359598320562595061366101608187623111.0,
      Stop)))))))));
  }

  lemma Stretch2(p: iset<(nat, real, real)>, c: Params, base: Point)
    requires Multiples(p, c, base) && Windows(p)
    requires (256, 42740085206947573681423002599456489563927820004573071834350074001818321593686.0,
              6935684722522267618220753829624209639984359598320562595061366101608187623111.0) in p
    ensures (65536, 42474966419402231471674152001358115696747244471432888578155981280875302200677.0,
             20182938281251249849712136486927848134532420155649429100890386875073412000822.0) in p
  {
    Travel(p, c, base, 57896044618658097711785492504343953926634992332820282019728792003956564819949.0,
      37095705934669439343138083508754565189542113879843219016388785533085940283555.0,
      256,
      42740085206947573681423002599456489563927820004573071834350074001818321593686.0,
      6935684722522267618220753829624209639984359598320562595061366101608187623111.0,
      Double(21224688672439988911666787158810613738323773477623112347883957939967013762058.0,
          38366836778969845606589656703794235990595431744668605526092433715493688021992.0,
      Double(48427913736837608266186835246980452511660467837864105011084951035203551898472.0,
          12175353081024358281744367214419414005476983323671937693306148471852937756989.0,
      Double(27186305465236551749842573802124445331552679641832078930108365447931276498935.0,
          2312041997451586708872587523550236508157965803316305389071105927566014363214.0,
      Double(56574002287690562566387008107654176112985293065528815433473093068153251878634.0,
          40555259698712479228142211631679471073561232444601298047972603499607234388181.0,
      Double(10780707225527799223727042055056551995903319194379151477081117380874163309022.0,
          52019749602470059668344983068026172384793681144736228079710257376320252456841.0,
      Double(3464320599267112696879288753247079893959896359625474425290602150960671705994.0,
          51694133746787581571724731688211103718833232899104586370422228323317173487873.0,
      Double(41301554414245700419639718923570458390119154231634759147665520927567584100098.0,
          29364674778601018936997556626806786174514088488710242926018946766714482756934.0,
      Double(42474966419402231471674152001358115696747244471432888578155981280875302200677.0,
          20182938281251249849712136486927848134532420155649429100890386875073412000822.0,
      Stop)))))))));
  }

  lemma Stretch3(p: iset<(nat, real, real)>, c: Params, base: Point)
    requires Multiples(p, c, base) && Windows(p)
    requires (65536, 42474966419402231471674152001358115696747244471432888578155981280875302200677.0,
              20182938281251249849712136486927848134532420155649429100890386875073412000822.0) in p
    ensures (16777216, 4953187230743962930662113245944254306680232166954327932822645132912059759223.0,
             14955570584878506545981286824704959560776362796341363640094685063311756888261.0) in p
  {
    Travel(p, c, base, 57896044618658097711785492504343953926634992332820282019728792003956564819949.0,
      37095705934669439343138083508754565189542113879843219016388785533085940283555.0,
      65536,
      42474966419402231471674152001358115696747244471432888578155981280875302200677.0,
      20182938281251249849712136486927848134532420155649429100890386875073412000822.0,
      Double(52869748631960986034856376238747990075784338722812323924650009680084842073895.0,
          3796174517710171698598804855217198428321733657889201949428151222167600506353.0,
      Double(48142588613070057936665739918694510016346910601601381787709232357287830656052.0,
          10385474060292222039643213821294435966838835008701008210657350549376377214577.0,
      Double(16394032366096881154453202042718985456910765089875944486157716261812202804788.0,
          25091281840661552205135748393579341584120703124592003105179293019326456324854.0,
      Double(3030652980257820293954590240644581873411659236202283991563565950415750739437.0,
          3449896845806921515373747351251070124616437120332303971385432452490848855288.0,
      Double(32641263228758150355667687431806095122956256108730064648049172982697192869757.0,
          52273704419139405159775014317290835933664475552332708366394330415164319248459.0,
      Double(26993053454492735757774095526931594398941435313067218024451801426996192317244.0,
          20756573878643363325793821026438350840612369149764266371668034898098235986297.0,
      Double(31520167665919384194696730538735098277674977480128774019718915946563876798036.0,
          48871947419602552330465379555019735272161840172752412330071639916632071437120.0,
      Double(4953187230743962930662113245944254306680232166954327932822645132912059759223.0,
          14955570584878506545981286824704959560776362796341363640094685063311756888261.0,
      Stop)))))))));
  }

  lemma Stretch4(p: iset<(nat, real, real)>, c: Params, base: Point)
    requires Multiples(p, c, base) && Windows(p)
    requires (16777216, 4953187230743962930662113245944254306680232166954327932822645132912059759223.0,
              14955570584878506545981286824704959560776362796341363640094685063311756888261.0) in p
    ensures (4294967296, 34881215023217925273427507880129132732978197777830040111026122875038460546235.0,
             49417579777138232809020590461442191010157021293872759678974198530760482863386.0) in p
  {
    Travel(p, c, base, 57896044618658097711785492504343953926634992332820282019728792003956564819949.0,
      37095705934669439343138083508754565189542113879843219016388785533085940283555.0,
      16777216,
      4953187230743962930662113245944254306680232166954327932822645132912059759223.0,
      14955570584878506545981286824704959560776362796341363640094685063311756888261.0,
      Double(19657949635683093185289569710211585343964433529222332533539288290160154185011.0,
          56892661656082980073316383795158683496393820909924608301927348333889896713218.0,
      Double(46976510156322507137269201780554059652401452413839958562844701649608332008299.0,
          25448670393978825583576233442397517457541692536451699283561630611656102572950.0,
      Double(18958742773298937073755619970621164217249748928981220693078384958060703810681.0,
          49060669014889618634034845030820105181036997350936347239322049348217814945797.0,
      Double(13692443628628542482398138298848103782249043847728748207160598387591474036267.0,
          6535661448952062909216951562535374120699607245381865810845630213621355776630.0,
      Double(44073126145632928819502260833325828264688543470827754699842109261297194996573.0,
          25708642289863751966302024225237904726630733908921048717331198880892436709901.0,
      Double(32998196372564612992359818786763423324015994136376432300157753889179321890705.0,
          22310901527710631603180993315816672899331474004376446475717230095796374000992.0,
      Double(54882909907635354958311263340029521311980981711637644057731212095996500430552.0,
          42932185445836734984879765196158360688663229692937278561535355964359997581186.0,
      Double(34881215023217925273427507880129132732978197777830040111026122875038460546235.0,
          49417579777138232809020590461442191010157021293872759678974198530760482863386.0,
      Stop)))))))));
  }

  lemma Stretch5(p: iset<(nat, real, real)>, c: Params, base: Point)
    requires Multiples(p, c, base) && Windows(p)
    requires (4294967296, 34881215023217925273427507880129132732978197777830040111026122875038460546235.0,
              49417579777138232809020590461442191010157021293872759678974198530760482863386.0) in p
    ensures (1099511627776, 6975916580616431138430993573433071747917420592434172169347774209021880766693.0,
             27729946105412964655112236315850267932468036882545041507320998583854342562650.0) in p
  {
    Travel(p, c, base, 57896044618658097711785492504343953926634992332820282019728792003956564819949.0,
      37095705934669439343138083508754565189542113879843219016388785533085940283555.0,
      4294967296,
      34881215023217925273427507880129132732978197777830040111026122875038460546235.0,
      49417579777138232809020590461442191010157021293872759678974198530760482863386.0,
      Double(34085450069500794510152409520807677869950508039913904939590977699961040436501.0,
          52278291416665193925925829527972181593462278765769350530558236265859287513035.0,
      Double(23406589806172960174851795884335653806454241620752476244917220156478142938335.0,
          37854925133430588252830311134599570623631025784885083249593544768206604501465.0,
      Double(30886537925985998524254955874096819652783119677955825045199375216769416949702.0,
          54037904725904619508111005987774813902206702994070596763696498304265167397445.0,
      Double(19639451821147740670698624700272734820894813909735291580470206199768700605392.0,
          57494903421850047051437277431621495081848935660098712752929417894600320224466.0,
      Double(12469452200683121609960440379957844757586634886744101850068664139886892025012.0,
          10489147278187110362134995111963226564141046001348941075622680658741593532648.0,
      Double(549689331659327561605194692422602825769416452111816234011461274565005995655.0,
          51469744701391552480837245041655791053255331145812797331218148961728035441779.0,
      Double(45113617814944202352153583642261178502360614596484279216729123193977391993714.0,
          1980278042691965713981149139930452264163076071667628639090250557504770174587.0,
      Double(6975916580616431138430993573433071747917420592434172169347774209021880766693.0,
          27729946105412964655112236315850267932468036882545041507320998583854342562650.0,
      Stop)))))))));
  }

  lemma Stretch6(p: iset<(nat, real, real)>, c: Params, base: Point)
    requires Multiples(p, c, base) && Windows(p)
    requires (1099511627776, 6975916580616431138430993573433071747917420592434172169347774209021880766693.0,
              27729946105412964655112236315850267932468036882545041507320998583854342562650.0) in p
    ensures (281474976710656, 37386868568128681599499830859763869162133292900805977973436494315455022169426.0,
             36563616321823734465666870349235432940379598201907262626645125270466793116054.0) in p
  {
    Travel(p, c, base, 57896044618658097711785492504343953926634992332820282019728792003956564819949.0,
      37095705934669439343138083508754565189542113879843219016388785533085940283555.0,
      1099511627776,
      6975916580616431138430993573433071747917420592434172169347774209021880766693.0,
      27729946105412964655112236315850267932468036882545041507320998583854342562650.0,
      Double(26721402367527682574942110461580517411213448744716771766358148163877301105728.0,
          9288387344892172799170744310978976179910527092723579902952158489343272868948.0,
      Double(10988524301762373242246727351929902921498129982664316002800509126742121162784.0,
          28440719635374571293396157229875541269413226941353902928329788578666889313331.0,
      Double(40716425138725944745186331899970009610267626729218118393270956274853491203124.0,
          46769152930682528968583401401235025295039214644177585564512426226384755878073.0,
      Double(37510741031459341378829814964903502667912927266993467424549080808057139144766.0,
          57303500313920857781889356400330248464357243021787478340933447880777082073539.0,
      Double(36241354563762173459705108462830400635564419268406145900966660417613821977637.0,
          21485101354679558701669270959816344644464678765615788190638683578533731429966.0,
      Double(20584796599643323532861987265526248228488799407283500188808238372131189701480.0,
          26478740800733269288198131365468684670960535144929794027484143547518195267108.0,
      Double(39134758420864184254969116302644788663556954029588642642423917089530226989597.0,
          5124259569483350729196958378822907526496602783247669422492733697864938451662.0,
      Double(37386868568128681599499830859763869162133292900805977973436494315455022169426.0,
          36563616321823734465666870349235432940379598201907262626645125270466793116054.0,
      Stop)))))))));
  }

  lemma Stretch7(p: iset<(nat, real, real)>, c: Params, base: Point)
    requires Multiples(p, c, base) && Windows(p)
    requires (281474976710656, 37386868568128681599499830859763869162133292900805977973436494315455022169426.0,
              36563616321823734465666870349235432940379598201907262626645125270466793116054.0) in p
    ensures (72057594037927936, 51502639449004291622700088031154688719483163480862436225495097465744471100900.0,
             25964330211653062987717188781243886463821901684982951650673786718455132103697.0) in p
  {
    Travel(p, c, base, 57896044618658097711785492504343953926634992332820282019728792003956564819949.0,
      37095705934669439343138083508754565189542113879843219016388785533085940283555.0,
      281474976710656,
      37386868568128681599499830859763869162133292900805977973436494315455022169426.0,
      36563616321823734465666870349235432940379598201907262626645125270466793116054.0,
      Double(28582163575878071020286779611073458927627633926762077980797377317166201949523.0,
          29517287490576008752010229265386725675942288741512148107897703457428460766064.0,
      Double(6664938945656958224937745274414537263586471401885907820916253978327430063844.0,
          2126634075982654318590492885153132310981526013601685661016577258450272533730.0,
      Double(26893906638378427820269402226975745300041457754729633179574373243303786072539.0,
          23888113636819035429926907107258444263090323522691660954731306854220582218409.0,
      Double(189355175404241672738129259114556965478340615081311091777345303360588540836.0,
          51767299105794865359908754261640899704919154549996018629901376258684159289317.0,
      Double(14160459449409432346176007562822108240728702992215244509282193488000767962072.0,
          40953833938605278231697173707354259912669188943485919940833211413684494670284.0,
      Double(4068261697406638961935849621742963533803537470089883744480903389537982658853.0,
          17740693327176817854801454122587194558819032432129012706849247534385017891832.0,
      Double(11823766772564295466429875255239566661981081448176083546584427805840615152756.0,
          54040755356101629851791062456974045253014690287858169301317937866514626344693.0,
      Double(51502639449004291622700088031154688719483163480862436225495097465744471100900.0,
          25964330211653062987717188781243886463821901684982951650673786718455132103697.0,
      Stop)))))))));
  }

  lemma Stretch8(p: iset<(nat, real, real)>, c: Params, base: Point)
    requires Multiples(p, c, base) && Windows(p)
    requires (72057594037927936, 51502639449004291622700088031154688719483163480862436225495097465744471100900.0,
              25964330211653062987717188781243886463821901684982951650673786718455132103697.0) in p
    ensures (18446744073709551616, 44388040078108422381599858079345000847427885062711346041771517276226329616898.0,
             1423604317745427322790381226394774763053130405907994130724317794966956167955.0) in p
  {
    Travel(p, c, base, 57896044618658097711785492504343953926634992332820282019728792003956564819949.0,
      37095705934669439343138083508754565189542113879843219016388785533085940283555.0,
      72057594037927936,
      51502639449004291622700088031154688719483163480862436225495097465744471100900.0,
      25964330211653062987717188781243886463821901684982951650673786718455132103697.0,
      Double(21734724549841690193090842476809076716419456331211857741265759957945129922704.0,
          29304975373538996048835671269729647815982116853415896625128567603603329907841.0,
      Double(30001687184291412988809724842551122044758922095287536204847335704949115767033.0,
          50835770704986724242436677611718431048705647431520755367710246538243619075335.0,
      Double(48882273411393669122044540803817352985557027118982854238955416614908556491266.0,
          11407218847596422755991434262659321162615585973279975075808294900032260014207.0,
      Double(39468567782001629845469931291703114351231301360810771182933666088696363117813.0,
          48520602033621835552297087477366344329736087438136796734023135166735240273716.0,
      Double(14634154268926673608900308779686697918188551795673908169701089186353020356853.0,
          22635139240448021868201029866848773426210620100937671088354264929878430660010.0,
      Double(40334547811194980222132355507048888492367411465942395326465999366654848330295.0,
          30141215867806221944935945054462736214036523470954538064480540475644488758752.0,
      Double(1858744241653336215343795677286102722518125133862047495966642301222759149346.0,
          51688159461706094879304629140765766764511202268320054417312410136779795003785.0,
      Double(44388040078108422381599858079345000847427885062711346041771517276226329616898.0,
          1423604317745427322790381226394774763053130405907994130724317794966956167955.0,
      Stop)))))))));
  }

  lemma Stretch9(p: iset<(nat, real, real)>, c: Params, base: Point)
    requires Multiples(p, c, base) && Windows(p)
    requires (18446744073709551616, 44388040078108422381599858079345000847427885062711346041771517276226329616898.0,
              1423604317745427322790381226394774763053130405907994130724317794966956167955.0) in p
    ensures (4722366482869645213696, 14209203893922473311723595664823042609383238336090280855951284872268697714335.0,
             54096248485646036580969450637608332943982160324686939405543494070853926149657.0) in p
  {
    Travel(p, c, base, 57896044618658097711785492504343953926634992332820282019728792003956564819949.0,
      37095705934669439343138083508754565189542113879843219016388785533085940283555.0,
      18446744073709551616,
      44388040078108422381599858079345000847427885062711346041771517276226329616898.0,
      1423604317745427322790381226394774763053130405907994130724317794966956167955.0,
      Double(1010247752756362260881243234901448331704228065985397871388404881884689704343.0,
          34905110436806704375115117043721051740842418404017689336019589974414716422638.0,
      Double(49444157831517844751255683186086055092391671187830014667142777982061391761769.0,
          38325651754372413483217343763106935496036760575967773049932675282070249514007.0,
      Double(48577842308630573365019333121847151099247213871386595032531930153824808034985.0,
          11698818496297094926714371527533498792080572905846263409223249541482347665093.0,
      Double(51416308261230323791972553180748498853602467457543596950952167188234310296102.0,
          26500516396956780220658887122604521806411632574870530108424521362596479422245.0,
      Double(15426476579153824640063748107939638128818377676814173710932605230473017653035.0,
          54874201845107823946446372651255629171375058352614330916365376676602781150596.0,
      Double(12712558393922043510311116546282894497829799292545297912541506421626765270056.0,
          39685799954857566999031473139583267673043941812564928655249869908845569230293.0,
      Double(35966709613487039836771455641568151899303686490727459701589928757130906345287.0,
          4590715909301946484670322652103488894781039724476604802293138388114824244525.0,
      Double(14209203893922473311723595664823042609383238336090280855951284872268697714335.0,
          54096248485646036580969450637608332943982160324686939405543494070853926149657.0,
      Stop)))))))));
  }

  lemma Stretch10(p: iset<(nat, real, real)>, c: Params, base: Point)
    requires Multiples(p, c, base) && Windows(p)
    requires (4722366482869645213696, 14209203893922473311723595664823042609383238336090280855951284872268697714335.0,
              54096248485646036580969450637608332943982160324686939405543494070853926149657.0) in p
    ensures (1208925819614629174706176,
             43672721813094808158322153823698981319419680095264823938511427045013292716276.0,
             26774469600843634339468622105851699981555180542412972644232493480876266571002.0) in p
  {
    Travel(p, c, base, 57896044618658097711785492504343953926634992332820282019728792003956564819949.0,
      37095705934669439343138083508754565189542113879843219016388785533085940283555.0,
      4722366482869645213696,
      14209203893922473311723595664823042609383238336090280855951284872268697714335.0,
      54096248485646036580969450637608332943982160324686939405543494070853926149657.0,
      Double(50225331128728478106780859889537807505048902429356838599409066831481056211564.0,
          48567226733225781276449566422287543329128010889111409895804967816670485558982.0,
      Double(14277504181738407774235093378032955288190316525985673811547794837958257411428.0,
          44871378086723879356737413210653521226866440740474535279860816276104559603579.0,
      Double(32418571708367977452352489589045334204504079160877254915429124079150328663559.0,
          18387148233383658620287056230463085911877635595024572348568551271925735393572.0,
      Double(15779270961168218795229828090701533240215204226023372799860239005869904877004.0,
          44830166261951740603279398495576682241725607809926503424472229723689170610363.0,
      Double(11934888751358376585367388605542262864084187912753477682625882954803615290685.0,
          14214449243666306908341928066213895894989764915988732118960193112150360243653.0,
      Double(24745401508182352002952447462187517145313719592095512250459315231990663674346.0,
          12605203304109359736839575646170095420028150170075032505021828813425976392506.0,
      Double(7139742008745815782467698207918707217570867389629573492211592981809669859250.0,
          10391024330052931068916219853641704524060189883573610974407450960946334497572.0,
      Double(43672721813094808158322153823698981319419680095264823938511427045013292716276.0,
          26774469600843634339468622105851699981555180542412972644232493480876266571002.0,
      Stop)))))))));
  }

  lemma Stretch11(p: iset<(nat, real, real)>, c: Params, base: Point)
    requires Multiples(p, c, base) && Windows(p)
    requires (1208925819614629174706176,
              43672721813094808158322153823698981319419680095264823938511427045013292716276.0,
              26774469600843634339468622105851699981555180542412972644232493480876266571002.0) in p
    ensures (309485009821345068724781056,
             47877216812782924174466763867175181383956969618415943364604849026510454529253.0,
             28112003636980376946454994616205437214785284325558286572284790568403397987982.0) in p
  {
    Travel(p, c, base, 57896044618658097711785492504343953926634992332820282019728792003956564819949.0,
      37095705934669439343138083508754565189542113879843219016388785533085940283555.0,
      1208925819614629174706176,
      43672721813094808158322153823698981319419680095264823938511427045013292716276.0,
      26774469600843634339468622105851699981555180542412972644232493480876266571002.0,
      Double(3989370560455708984633793475698444523747174347184717690382157232120584787329.0,
          32505703979076959151485506556792486289027941138272760644562679672175933443866.0,
      Double(5059886806144239654386250234132239322534981646959530787642810205204823263599.0,
          44781990901350621119000479168942884261150661419375333506507720470732519651804.0,
      Double(5034499113101539419171195675489016129397586213000300161297322761474792468007.0,
          38984291250628169793609367006953049629309747617110716218706415095166866209475.0,
      Double(28701589195663402661877848408121388944364705228705833837290335451947214372354.0,
          7204387230095814289155112784314167486479491389461677700039482462117900149790.0,
      Double(4043104448796842162745666493312998641829351915822871392692138036596732345587.0,
          25583947464430871653586840964872231498494354583644780039898113211018348195426.0,
      Double(16967413801548701797242886843680090165318588349974756792262810250234279035069.0,
          44697289841450513164033704384247986028022748316827147885385602092788632953231.0,
      Double(2579649274306548849837733000395332723289589758529702916422942026934274000925.0,
          15903853772550703579537912563242422228297542773675645660330868481778530607407.0,
      Double(47877216812782924174466763867175181383956969618415943364604849026510454529253.0,
          28112003636980376946454994616205437214785284325558286572284790568403397987982.0,
      Stop)))))))));
  }

  lemma Stretch12(p: iset<(nat, real, real)>, c: Params, base: Point)
    requires Multiples(p, c, base) && Windows(p)
    requires (309485009821345068724781056,
              47877216812782924174466763867175181383956969618415943364604849026510454529253.0,
              28112003636980376946454994616205437214785284325558286572284790568403397987982.0) in p
    ensures (79228162514264337593543950336,
             37070215148198071430799085968753265750032279687669442199535644547659159008720.0,
             24277510719184982406390712670096807578634110983235809048632298767886642985665.0) in p
  {
    Travel(p, c, base, 57896044618658097711785492504343953926634992332820282019728792003956564819949.0,
      37095705934669439343138083508754565189542113879843219016388785533085940283555.0,
      309485009821345068724781056,
      47877216812782924174466763867175181383956969618415943364604849026510454529253.0,
      28112003636980376946454994616205437214785284325558286572284790568403397987982.0,
      Double(44624650523877827989751820302168351134993681066479444271153806569668535957209.0,
          27714478525736819310693039843449131161995095049081766735341612278922679271227.0,
      Double(35329897255136253373431638007078284535646557446689786639069168126562061520510.0,
          48102472413184753722918898271017592259334671993463580839736558443832467501512.0,
      Double(57854637032597121065424460477283781507211162156907553379809587845807142677871.0,
          8595708305423838218427337239184970131694134488607489845436010670114592093907.0,
      Double(13661732206155304631473207485375887840040863051006406460921523783662717752866.0,
          18702667302471406267943646186561629076477578914690077859029294500205891615865.0,
      Double(34678801872141263131717568048919688293891458498596049038512335591958388269398.0,
          14051700864432503195603174423174243178139259455397278969489826247036072519711.0,
      Double(56271287709999114249430521279143619599708294450613804315340758418615759138947.0,
          26709183970593361440546052460951843372876673094798344582055628577437062451.0,
      Double(4941794609987678981879188000114348043986995390085707309908914207158224370220.0,
          11393072468401385903230649060352828887982933982104030268046685519118680025095.0,
      Double(37070215148198071430799085968753265750032279687669442199535644547659159008720.0,
          24277510719184982406390712670096807578634110983235809048632298767886642985665.0,
      Stop)))))))));
  }

  lemma Stretch13(p: iset<(nat, real, real)>, c: Params, base: Point)
    requires Multiples(p, c, base) && Windows(p)
    requires (79228162514264337593543950336,
              37070215148198071430799085968753265750032279687669442199535644547659159008720.0,
              24277510719184982406390712670096807578634110983235809048632298767886642985665.0) in p
    ensures (20282409603651670423947251286016,
             11371879162373812903597632893053130771100210169456679508604354695621139343631.0,
             5678923034335803499854193512949185707312411812586470592763075824256665264606.0) in p
  {
    Travel(p, c, base, 57896044618658097711785492504343953926634992332820282019728792003956564819949.0,
      37095705934669439343138083508754565189542113879843219016388785533085940283555.0,
      79228162514264337593543950336,
      37070215148198071430799085968753265750032279687669442199535644547659159008720.0,
      24277510719184982406390712670096807578634110983235809048632298767886642985665.0,
      Double(39149621700212626749621435400351405351231184907008598760301451381081013983041.0,
          34503224398479003962600496102980592214075457369331528461237883842917276072424.0,
      Double(23185922985978961765525879604265755828711139395011139482900477285540574790618.0,
          36367764535089816925445391884049081669258296710246889978535540710889807755205.0,
      Double(23334028275166191184164139591657077754376896079733520656064186218287653342618.0,
          41978652946500496924928875394389872458253357230394695728294241695963720135571.0,
      Double(28796363583862847668812044605178507244825877227342242014774155208318462834757.0,
          55234959353662462202983325031925176159492936554011128458548182362800408727260.0,
      Double(22152377815713073885123024134220181662013025517934765653685593051807730951109.0,
          20210740406512502967027943336656788111164148198915921899551468572151061000341.0,
      Double(43620949520144324161844112921540314179791160756548604822571317354672290688656.0,
          55960850383955117084497078728968100220583635988916106362750056582565381170825.0,
      Double(13910242112313529748247338058346265735204793031963188360415155111564876935229.0,
          28026033346964984143781324810989054090462624756509060308165423548333335784666.0,
      Double(11371879162373812903597632893053130771100210169456679508604354695621139343631.0,
          5678923034335803499854193512949185707312411812586470592763075824256665264606.0,
      Stop)))))))));
  }

  lemma Stretch14(p: iset<(nat, real, real)>, c: Params, base: Point)
    requires Multiples(p, c, base) && Windows(p)
    requires (20282409603651670423947251286016,
              11371879162373812903597632893053130771100210169456679508604354695621139343631.0,
              5678923034335803499854193512949185707312411812586470592763075824256665264606.0) in p
    ensures (5192296858534827628530496329220096,
             30407400204072033917609480172618297228059702465168718418817308450301417256315.0,
             49315877793598952090227901245738270288685983126601288875006392048674637302542.0) in p
  {
    Travel(p, c, base, 57896044618658097711785492504343953926634992332820282019728792003956564819949.0,
      37095705934669439343138083508754565189542113879843219016388785533085940283555.0,
      20282409603651670423947251286016,
      11371879162373812903597632893053130771100210169456679508604354695621139343631.0,
      5678923034335803499854193512949185707312411812586470592763075824256665264606.0,
      Double(18362839244894279592215249911553963787851060777743113998886545263569847927955.0,
          4210807820446419651105742493190316853815492326276504789502512130186582234685.0,
      Double(23921107455925441612550629086478938150848187330668405596858230151041390475098.0,
          12599238266398634998434556842240768274292438963378237556139324609460374067494.0,
      Double(34696320127735655402512265767697602636168153659137920083789137692959599647944.0,
          42120638134327975966011272240411516459099234670144041314385743337890494036069.0,
      Double(33227521516354605999830589514515865710822327852925376114255137871690735587244.0,
          22681039011760707337500602565057111277108423406256855863837270100715275112616.0,
      Double(45816511225176877996140255040609219587091107439457578341038316968132283752617.0,
          36549853415134963004198791385929027950142848447981419764990803009399724054934.0,
      Double(4109725613230504426324669336546893204699348150375590650961079986402263006479.0,
          13548220015390787328262599706228652778399536104956932282542935971617933593799.0,
      Double(31674252996734707212481088088643240141425643801543286253248344469973004656554.0,
          6786196619175573608309283443380719738877074976577908471831120085453336700494.0,
      Double(30407400204072033917609480172618297228059702465168718418817308450301417256315.0,
          49315877793598952090227901245738270288685983126601288875006392048674637302542.0,
      Stop)))))))));
  }

  lemma Stretch15(p: iset<(nat, real, real)>, c: Params, base: Point)
    requires Multiples(p, c, base) && Windows(p)
    requires (5192296858534827628530496329220096,
              30407400204072033917609480172618297228059702465168718418817308450301417256315.0,
              49315877793598952090227901245738270288685983126601288875006392048674637302542.0) in p
    ensures (1329227995784915872903807060280344576,
             35118750000941396177384144572236461584765045922296921590426241445782749078564.0,
             22276559719444846469370701617737789620267379936674566170770241509797286014565.0) in p
  {
    Travel(p, c, base, 57896044618658097711785492504343953926634992332820282019728792003956564819949.0,
      37095705934669439343138083508754565189542113879843219016388785533085940283555.0,
      5192296858534827628530496329220096,
      30407400204072033917609480172618297228059702465168718418817308450301417256315.0,
      49315877793598952090227901245738270288685983126601288875006392048674637302542.0,
      Double(44417092014879103586055534704850737242542372632022894149816268053224964424171.0,
          28092835439062208164608941398448814112137896638247692330991965419364853280613.0,
      Double(55913645708648454082380885333952414587415523972517829512720425474171989429039.0,
          4170341877731070479064719941590894238873155105706772330803492495594024043916.0,
      Double(57358306754892087581061482960601343272150180511706384027111409727530014615872.0,
          7501227636099754662821696917164574092234190941956901631865902241653090361542.0,
      Double(48782782515836871628938299209492917508321674529612667649282153140637733656059.0,
          20014236295691833912353873433172840618145541540180033958100959161035845143094.0,
      Double(11618050754323719385443732951567856244563825728122233676622712000620990083402.0,
          42578444816027188744577909552774348432010679314070739170427174452067063733643.0,
      Double(31547400550276104307900899036819671847265416450370273588479799778844560833009.0,
          37367989165521616201930780541222369146292023138676617257266389707008216833638.0,
      Double(25956985989161136316235961527236916457717926829394295299028523314216733689351.0,
          50364565591067077996626372578228644798066456462962263809084137884269951378152.0,
      Double(35118750000941396177384144572236461584765045922296921590426241445782749078564.0,
          22276559719444846469370701617737789620267379936674566170770241509797286014565.0,
      Stop)))))))));
  }

  lemma Stretch16(p: iset<(nat, real, real)>, c: Params, base: Point)
    requires Multiples(p, c, base) && Windows(p)
    requires (1329227995784915872903807060280344576,
              35118750000941396177384144572236461584765045922296921590426241445782749078564.0,
              22276559719444846469370701617737789620267379936674566170770241509797286014565.0) in p
    ensures (340282366920938463463374607431768211456,
             34445898214599204196824587830670445739267303633182408050117152659121903233060.0,
             43048524062920118298805915568484795959327268000798232147099016825120495085163.0) in p
  {
    Travel(p, c, base, 57896044618658097711785492504343953926634992332820282019728792003956564819949.0,
      37095705934669439343138083508754565189542113879843219016388785533085940283555.0,
      1329227995784915872903807060280344576,
      35118750000941396177384144572236461584765045922296921590426241445782749078564.0,
      22276559719444846469370701617737789620267379936674566170770241509797286014565.0,
      Double(15495667847963519095070902975254013254054297059438951355864834066532640060236.0,
          44548947909159043917403409442457288878516759169055680620236387754235369409972.0,
      Double(1871107102280547590065037923261765627391729441701934941391723968422325914548.0,
          2197280331012323570322413448915527766660864684378650497684553118254920260348.0,
      Double(45090698995977474290632961691477301097024747374015152515190560720018468165568.0,
          12254579022675596810231884862276069575540423112673550018377525848277481401878.0,
      Double(5054797618327281071443738716493596768237980643463800357794684862056619267462.0,
          32528688704343641313631911710448027152095479374942741660511292005602282822378.0,
      Double(3116396207800974126741352651042756943303008617071878591507809562704911510205.0,
          51997965663228500457050430249387147003714475761347555819390336249670266088570.0,
      Double(14055490458127722535889980752338964994832593866234835702288268286656839412260.0,
          46226773486422651493508693434203867574287052738705572908570241545752789081928.0,
      Double(13255665929656146281080449887007641909509999304849491744738638209813853897619.0,
          55705207129829464869897097349416518624188726193119147708421062336186161442401.0,
      Double(34445898214599204196824587830670445739267303633182408050117152659121903233060.0,
          43048524062920118298805915568484795959327268000798232147099016825120495085163.0,
      Stop)))))))));
  }

  lemma Stretch17(p: iset<(nat, real, real)>, c: Params, base: Point)
    requires Multiples(p, c, base) && Windows(p)
    requires (340282366920938463463374607431768211456,
              34445898214599204196824587830670445739267303633182408050117152659121903233060.0,
              43048524062920118298805915568484795959327268000798232147099016825120495085163.0) in p
    ensures (43556142965880123323311949751266331066528,
             15197642844739019127225993575930427512404933640804322620993127011699495314559.0,
             49389580251959431246394200900977076259135913573745643664213411152329210878896.0) in p
  {
    Travel(p, c, base, 57896044618658097711785492504343953926634992332820282019728792003956564819949.0,
      37095705934669439343138083508754565189542113879843219016388785533085940283555.0,
      340282366920938463463374607431768211456,
      34445898214599204196824587830670445739267303633182408050117152659121903233060.0,
      43048524062920118298805915568484795959327268000798232147099016825120495085163.0,
      Double(54468161356533199495368251232949756902362822455729558615345521844455465083013.0,
          45786733715774964106052639328220628713810319567465451448853998335128869152566.0,
      Double(15376680214472594388297076775801069075796453668683777673974256464718742858259.0,
          36205286238381305703459570197756276983310200040700818089343846617668540962560.0,
      Plus(5, 33467004535436536005251147249499675200073690106659565782908757308821616914995.0,
          43097193783671926753355113395909008640284023746042808659097434958891230611693.0,
          57287386626394774113138642367524579237642912431093605397008543154920470742987.0,
          53034412112453024451555980813444223768796676148163660906444619035861838582367.0,
      Double(19116843779388832953239487290352966440392542320173648942287117641758470389515.0,
          25488289157064646651594096343608121960962033258311311893140349779412757921655.0,
      Double(18498329282623250392098226507012794913375033583563504655804061550556098950901.0,
          41279984179417285780657987301543487999306998951695814509490041373997411205442.0,
      Double(14621198854137609352185386775297015418456171262585965701722812123582990923450.0,
          33937705450845299837390715378349635587930408361541413706760981795318198807960.0,
      Double(15833701688186059070962980442297413648288580752529803879599315643222080994042.0,
          13407010015456685219267224426409777360436480962740438799866928235086659004871.0,
      Double(15197642844739019127225993575930427512404933640804322620993127011699495314559.0,
          49389580251959431246394200900977076259135913573745643664213411152329210878896.0,
      Stop)))))))));
  }

  lemma Stretch18(p: iset<(nat, real, real)>, c: Params, base: Point)
    requires Multiples(p, c, base) && Windows(p)
    requires (43556142965880123323311949751266331066528,
              15197642844739019127225993575930427512404933640804322620993127011699495314559.0,
              49389580251959431246394200900977076259135913573745643664213411152329210878896.0) in p
    ensures (2787593149816327892691964784081045188258236,
             8696358334141002097446952723756445933336158382040018733145859827398848667418.0,
             49914493966203379105677895045971336036193560656021944568162311710992010284313.0) in p
  {
    Travel(p, c, base, 57896044618658097711785492504343953926634992332820282019728792003956564819949.0,
      37095705934669439343138083508754565189542113879843219016388785533085940283555.0,
      43556142965880123323311949751266331066528,
      15197642844739019127225993575930427512404933640804322620993127011699495314559.0,
      49389580251959431246394200900977076259135913573745643664213411152329210878896.0,
      Double(25259111230701426756942329172232050489632564367032506157827480327192158376906.0,
          53149501642421575240885475667556783532843102242037455648369780828592046252652.0,
      Plus(13, 7442235066513780790779899786332475485840754593728627195931759107337804079085.0,
          8529785864514984411577036536286432879603480171865651918962709025066066124672.0,
          57545990244224688421572221211126488057580714605475232348723459436708012890204.0,
          35687759351612237211236719554375743390279023673868451052610253484044299090849.0,
      Double(25505436711441821349224520623107218615185855420401250367390122961195493794301.0,
          10834264678591212176408020173122028602766981354020079086933210599053296751427.0,
      Double(38497933024980006197515011864953825249433479389774834621026784481279938636701.0,
          12141712815086446474442800291546546712485402473900021432560590666249329737630.0,
      Double(40321696185017382843046686760981719523407542568903092195299336190155341247101.0,
          36397203464216082387549422738854193546933453693208899301710981055669783294181.0,
      Plus(7, 9199134265559022971505535402808359556995554859516252602543778295037484220679.0,
          22512087849695599276028560866629687720820254811233262850576678203618951717560.0,
          47665411179420988199152695816139026835228442965515613043269557029774361999958.0,
          40908640816570166830668392336996678150383855343728565389933924782170062846764.0,
      Double(53011014817224097919821535701825386355148612634680166929673301417710634291120.0,
          17822171030124132882905675502759293263064695569656206798606987611841664385142.0,
      Double(8696358334141002097446952723756445933336158382040018733145859827398848667418.0,
          49914493966203379105677895045971336036193560656021944568162311710992010284313.0,
      Stop)))))))));
  }

  lemma Stretch19(p: iset<(nat, real, real)>, c: Params, base: Point)
    requires Multiples(p, c, base) && Windows(p)
    requires (2787593149816327892691964784081045188258236,
              8696358334141002097446952723756445933336158382040018733145859827398848667418.0,
              49914493966203379105677895045971336036193560656021944568162311710992010284313.0) in p
    ensures (356811923176489970264571492362373784097054448,
             55498238871908071236758354055688909979753111206894285820454466730786144559263.0,
             32026444620307638540683895483892133210264781093981735895327335579924108985691.0) in p
  {
    Travel(p, c, base, 57896044618658097711785492504343953926634992332820282019728792003956564819949.0,
      37095705934669439343138083508754565189542113879843219016388785533085940283555.0,
      2787593149816327892691964784081045188258236,
      8696358334141002097446952723756445933336158382040018733145859827398848667418.0,
      49914493966203379105677895045971336036193560656021944568162311710992010284313.0,
      Double(16557873356733362524009567008738802589165815055421667101404886845813161016959.0,
          9514129598986158764886089447481062999954879314893403819349966231686750424956.0,
      Double(52814985506741951246953073625772315197074015043396927462460976981244119233165.0,
          27391266819027832079253264004933313976885097679649483972115247032559942493112.0,
      Double(48548922208013158529651652111752697155695784220370326963368050214056678587589.0,
          26842511731266394660529306922077974771541148664426321446555436705445673303408.0,
      Plus(15, 35771902585589234259498423420223840099331465042459337605611172842168536632769.0,
          8502034780705657720897159939055122322178084209392286764802307224484658961631.0,
          12680069865085673657364980716583914121526263284386501750244750949353272907776.0,
          29189507275317351527673672757469484306572559378073767741755834378979921331658.0,
      Double(54816600594738306420286682143143620712680911767461230060916008255668003262777.0,
          16209310812522612296589866303659665155382191529397976157135582126063987450639.0,
      Double(42877173293877859033179236462693424330157660716503028939382737163730101924917.0,
          56206462409332967314821075506419978327460500593656890545658553624504442671405.0,
      Double(5421081422599415988527105388574334271115970209779472613049901306635131996127.0,
          36518596902407285605086854508778658112231193239836699638258216890760788946438.0,
      Double(55498238871908071236758354055688909979753111206894285820454466730786144559263.0,
          32026444620307638540683895483892133210264781093981735895327335579924108985691.0,
      Stop)))))))));
  }

  lemma Stretch20(p: iset<(nat, real, real)>, c: Params, base: Point)
    requires Multiples(p, c, base) && Windows(p)
    requires (356811923176489970264571492362373784097054448,
              55498238871908071236758354055688909979753111206894285820454466730786144559263.0,
              32026444620307638540683895483892133210264781093981735895327335579924108985691.0) in p
    ensures (22835963083295358096932575511191922182211485300,
             56912371624397912119993366104164074680684080618935146872139837618194409890218.0,
             33037105775320405199937560948701590237377455557977304134556551276796370449619.0) in p
  {
    Travel(p, c, base, 57896044618658097711785492504343953926634992332820282019728792003956564819949.0,
      37095705934669439343138083508754565189542113879843219016388785533085940283555.0,
      356811923176489970264571492362373784097054448,
      55498238871908071236758354055688909979753111206894285820454466730786144559263.0,
      32026444620307638540683895483892133210264781093981735895327335579924108985691.0,
      Plus(9, 24193060302538010417230488029838514081720802923509845138863968807030823940444.0,
          57551756252899625001155759838357770487605224608455116862194664796369308545472.0,
          4494930324297705238928315781281950089124660224002781989033932708575865903552.0,
          19033705974236780840128659864685083296059595886141308798561595460433839772284.0,
      Double(42736300586347337527673401514686043119112405254552907449394366408818202814323.0,
          37415531055014906191276277580949249280505028007338226955517247790858995285108.0,
      Double(14194515405373950882637694110800870402677782447359786189132213877052537880694.0,
          23724158194582561725231602703815991174080296460810330790006403874230496383525.0,
      Double(41267703576456378997820228729872714747974111677535252667176808643216493880970.0,
          3968790278023426403697487584249091447582764696189872528124474452860986937097.0,
      Double(32094196659846748068606558385374043010149454546081350067500202711145724139433.0,
          7359118042909841308811322411011294162793762241242740230793809904399942942491.0,
      Plus(13, 7442235066513780790779899786332475485840754593728627195931759107337804079085.0,
          8529785864514984411577036536286432879603480171865651918962709025066066124672.0,
          57587860629326703910348865271655242652316958815152756415581081694806604527534.0,
          5956384283592027817810417263546127891376223789932719839086892494800798068047.0,
      Double(15166065459516624714937921526938291997144197479455259554370747081019562696090.0,
          53516782788221748965783119446205476306219340060040153882600850294703229442331.0,
      Double(56912371624397912119993366104164074680684080618935146872139837618194409890218.0,
          33037105775320405199937560948701590237377455557977304134556551276796370449619.0,
      Stop)))))))));
  }

  lemma Stretch21(p: iset<(nat, real, real)>, c: Params, base: Point)
    requires Multiples(p, c, base) && Windows(p)
    requires (22835963083295358096932575511191922182211485300,
              56912371624397912119993366104164074680684080618935146872139837618194409890218.0,
              33037105775320405199937560948701590237377455557977304134556551276796370449619.0) in p
    ensures (1461501637330902918203684832716283019661535059434,
             53408905309115804121594073890693190338668643613776928652792734171959268815793.0,
             26483783170820254269247772943573845581745577449426428630935316615510250579427.0) in p
  {
    Travel(p, c, base, 57896044618658097711785492504343953926634992332820282019728792003956564819949.0,
      37095705934669439343138083508754565189542113879843219016388785533085940283555.0,
      22835963083295358096932575511191922182211485300,
      56912371624397912119993366104164074680684080618935146872139837618194409890218.0,
      33037105775320405199937560948701590237377455557977304134556551276796370449619.0,
      Double(18388956371627432275994031151861525921570290810541317907732900397378093996299.0,
          4387208236826484349985139511964577621927659064451444848504071517315351774097.0,
      Plus(7, 9199134265559022971505535402808359556995554859516252602543778295037484220679.0,
          22512087849695599276028560866629687720820254811233262850576678203618951717560.0,
          47644912502939530382359701638589880653790537994592361529115457060242217249769.0,
          37284250659358192310948175616937262349477083080106127936244343020712085663572.0,
      Double(16141687387880132514068786843488823486526529975638266225420353395087229188939.0,
          51374989975681168649272189396038456273500400051367613109295671102719039749130.0,
      Double(18274922276918964952578507571894065478826777477480902085797603658111838472277.0,
          53383320646283222191225385821786623071157441667112969733967699327836746093139.0,
      Double(38521744922313290993078931083523821024850128461951649514602635246807545136935.0,
          26678388510102898601019147614930812937132023197429686521953835368905213719471.0,
      Double(22172620923493214042446389722645099844917521354816873489009341815020502190284.0,
          43276294471475633586409895754354275809825280763662297461183929520652582493271.0,
      Plus(5, 33467004535436536005251147249499675200073690106659565782908757308821616914995.0,
          43097193783671926753355113395909008640284023746042808659097434958891230611693.0,
          7101013764181857221469411635023371419982929742177865615485145664565034020814.0,
          25100303233440515294907358208048928369648285879095887028887101799012100541157.0,
      Double(53408905309115804121594073890693190338668643613776928652792734171959268815793.0,
          26483783170820254269247772943573845581745577449426428630935316615510250579427.0,
      Stop)))))))));
  }

  lemma Stretch22(p: iset<(nat, real, real)>, c: Params, base: Point)
    requires Multiples(p, c, base) && Windows(p)
    requires (1461501637330902918203684832716283019661535059434,
              53408905309115804121594073890693190338668643613776928652792734171959268815793.0,
              26483783170820254269247772943573845581745577449426428630935316615510250579427.0) in p
    ensures (187072209578355573530071658587684226516676487607574,
             21272228237420306519524510949909448175283051436036579507101838866096980217099.0,
             13699638219252845177998177070027743899677877202898228156131160510746757635314.0) in p
  {
    Travel(p, c, base, 57896044618658097711785492504343953926634992332820282019728792003956564819949.0,
      37095705934669439343138083508754565189542113879843219016388785533085940283555.0,
      1461501637330902918203684832716283019661535059434,
      53408905309115804121594073890693190338668643613776928652792734171959268815793.0,
      26483783170820254269247772943573845581745577449426428630935316615510250579427.0,
      Double(11204901660007146097635782991627139458299335402172885422977940875802867618905.0,
          36942444326890742571743156249884644698204962760366454599975305440929898478453.0,
      Double(51048747630529511839803579679101694524274710854628509194748325267846176738410.0,
          34785133162986051122207142014404093044404547312893108922996096204964038334053.0,
      Double(38447436415520228730318655948007036615162944990665611450841878511050912814562.0,
          43226023682789180894875564242548572743382562615766922785903075213201218164758.0,
      Double(13609819656197420239953687793890678694098788235260089493158474168644463489133.0,
          19115873407392503549388839289519016613571005885096029760848674930021178487440.0,
      Double(44727730114011277454255213764838203084573822049847383405205918896570486961763.0,
          52913996000635541568478424988728155181252907662446589981177318485806532424060.0,
      Double(17810599830833991339600012018415751379054754649463068028908752054940269564063.0,
          19773679726919737147195884689781357255815098690531219734304409354152878350670.0,
      Plus(11, 9451145793506787353375160377761530931587019091193333050860601958827395183563.0,
          20609402718286069808115703540855311742885093522056241285814584245966805874451.0,
          6718121287919759270692202190471620706227207625049064646828695707523574943721.0,
          10581737216253995200824244887115323533449877297429941709184113590567564488270.0,
      Double(21272228237420306519524510949909448175283051436036579507101838866096980217099.0,
          13699638219252845177998177070027743899677877202898228156131160510746757635314.0,
      Stop)))))))));
  }

  lemma Stretch23(p: iset<(nat, real, real)>, c: Params, base: Point)
    requires Multiples(p, c, base) && Windows(p)
    requires (187072209578355573530071658587684226516676487607574,
              21272228237420306519524510949909448175283051436036579507101838866096980217099.0,
              13699638219252845177998177070027743899677877202898228156131160510746757635314.0) in p
    ensures (11972621413014756705924586149611790497067295206884847,
             25642617154688694782683584096778241258047849052791524465859825264430943054453.0,
             11944319465707052963627734564822561830341555968206873257523078761283489919070.0) in p
  {
    Travel(p, c, base, 57896044618658097711785492504343953926634992332820282019728792003956564819949.0,
      37095705934669439343138083508754565189542113879843219016388785533085940283555.0,
      187072209578355573530071658587684226516676487607574,
      21272228237420306519524510949909448175283051436036579507101838866096980217099.0,
      13699638219252845177998177070027743899677877202898228156131160510746757635314.0,
      Double(19836942927121743666227814018872365889581989616771819331682514437568789444668.0,
          42256283115558178696296451264915996122509100874170426032747715926694401782317.0,
      Double(56173996334972358974658866710209613530247269994584899128692105844968919955293.0,
          32354889027737999278487476959676874534256069100491468863932390463635125341943.0,
      Double(26267820000601886734777334264591044029266768103132504192447282031392823771823.0,
          36869709676394364778744325467377893946093150782474245277455193116739165991154.0,
      Plus(13, 7442235066513780790779899786332475485840754593728627195931759107337804079085.0,
          8529785864514984411577036536286432879603480171865651918962709025066066124672.0,
          52122569193539170509907653839149966985910306175727007350525768166852472709154.0,
          49642474924334789352151903836107790837956900622954848004851656057486785850165.0,
      Double(32520233469089850074396062145445549845446230779983103410803641664622336703620.0,
          13236398305289721393420813698022438044469856831616409749656312681143025679211.0,
      Double(7881565327298333252456107068442863855419687388979985451444198076143996665181.0,
          153987360802562951217982567223730875977450020382910133110579307868641912060.0,
      Double(35135341146181051661041486172028397875982909540126740196879419150540013422449.0,
          53099642866542114734486226356545877225579490094983771411269166178730291837104.0,
      Plus(7, 9199134265559022971505535402808359556995554859516252602543778295037484220679.0,
          22512087849695599276028560866629687720820254811233262850576678203618951717560.0,
          25642617154688694782683584096778241258047849052791524465859825264430943054453.0,
          11944319465707052963627734564822561830341555968206873257523078761283489919070.0,
      Stop)))))))));
  }

  lemma Stretch24(p: iset<(nat, real, real)>, c: Params, base: Point)
    requires Multiples(p, c, base) && Windows(p)
    requires (11972621413014756705924586149611790497067295206884847,
              25642617154688694782683584096778241258047849052791524465859825264430943054453.0,
              11944319465707052963627734564822561830341555968206873257523078761283489919070.0) in p
    ensures (1532495540865888858358347027150309183624613786481260444,
             39118270552832779624660189756944654802583303827645786142883129881328360291615.0,
             56369328790041725851357775274451092705729152700639970495966246858166523159832.0) in p
  {
    Travel(p, c, base, 57896044618658097711785492504343953926634992332820282019728792003956564819949.0,
      37095705934669439343138083508754565189542113879843219016388785533085940283555.0,
      11972621413014756705924586149611790497067295206884847,
      25642617154688694782683584096778241258047849052791524465859825264430943054453.0,
      11944319465707052963627734564822561830341555968206873257523078761283489919070.0,
      Double(49626519104615782636461673506839644991766269466049547832608512919430059762862.0,
          5497443879606017388126645566956597823844182433267009051391897920469032444321.0,
      Double(31480752397025564694247816226876651691785264586090852770071192750515267479274.0,
          55116015393685266842364943097694836093668791922548169601515429150914097604109.0,
      Double(29707555633416399197301393273435295307406394544358281180759695095383496277064.0,
          44506112060121558473101940915810747367683008126742387616070465765470525891639.0,
      Double(56102176780653912912216962748566866126550576200872187605095569267993512337601.0,
          46747201383715412257808493386323432558704194527812712206271690273227751707708.0,
      Double(10089332235619609975098702122940352424664957721135307901358721596537283468950.0,
          17192704514463481407429893197516206342666003222408393597320228831987922413956.0,
      Plus(7, 9199134265559022971505535402808359556995554859516252602543778295037484220679.0,
          22512087849695599276028560866629687720820254811233262850576678203618951717560.0,
          22099117863755106538735530764060004613157866850517076057667690246164956557830.0,
          785495364037636087310003685321122387638403543618727422741813996180127394678.0,
      Double(31026703742185374618485082949821731230709165413863141516654419053735671792272.0,
          37241772735327170643246908160350648444781752334006528059498772819509655010622.0,
      Double(39118270552832779624660189756944654802583303827645786142883129881328360291615.0,
          56369328790041725851357775274451092705729152700639970495966246858166523159832.0,
      Stop)))))))));
  }

  lemma Stretch25(p: iset<(nat, real, real)>, c: Params, base: Point)
    requires Multiples(p, c, base) && Windows(p)
    requires (1532495540865888858358347027150309183624613786481260444,
              39118270552832779624660189756944654802583303827645786142883129881328360291615.0,
              56369328790041725851357775274451092705729152700639970495966246858166523159832.0) in p
    ensures (196159429230833773869868419475239575503950564669601336936,
             37418201192379281338940069018979628135114365155191471076607513460261653688104.0,
             9462101489645363605520336119798650853453721944728581706448929775255972633222.0) in p
  {
    Travel(p, c, base, 57896044618658097711785492504343953926634992332820282019728792003956564819949.0,
      37095705934669439343138083508754565189542113879843219016388785533085940283555.0,
      1532495540865888858358347027150309183624613786481260444,
      39118270552832779624660189756944654802583303827645786142883129881328360291615.0,
      56369328790041725851357775274451092705729152700639970495966246858166523159832.0,
      Double(27343817540998960862162013541640585396187784652925542086983099250793879578768.0,
          43649302063445602409811987528767732391982280180390537625697051690931684796309.0,
      Double(8575542919774309946188616428652596153541863544083634262688878910553966586751.0,
          29610964321760017206593772771642474897875924672784099477319590661396462812241.0,
      Double(8561074696628270517460223855337774672397250347016051874135480613992878922777.0,
          56571013202941097415781893812949238115716786129025815983397667289005880456840.0,
      Double(16178290644611077029555087637657293207975081918429066080337414447295629929655.0,
          8343701331581211775998165257382932480623242145181947976681472653469770775156.0,
      Plus(13, 7442235066513780790779899786332475485840754593728627195931759107337804079085.0,
          8529785864514984411577036536286432879603480171865651918962709025066066124672.0,
          35773991173264228330058040176377463597902356043074975501516802543889720080682.0,
          27321923990433253382170255787847336983739376902274204720564515684984515071800.0,
      Double(30388176730912152420367414077002040141107926867141623309896608102819075344778.0,
          15742675219236997690172616893011859797038150913669579714319550839750172297309.0,
      Double(47874622032957938312982104383318577006024427794041316055325789274471186837794.0,
          19056198757102973308842849740484068364756409390293038103369998072139031458508.0,
      Double(37418201192379281338940069018979628135114365155191471076607513460261653688104.0,
          9462101489645363605520336119798650853453721944728581706448929775255972633222.0,
      Stop)))))))));
  }

  lemma Stretch26(p: iset<(nat, real, real)>, c: Params, base: Point)
    requires Multiples(p, c, base) && Windows(p)
    requires (196159429230833773869868419475239575503950564669601336936,
              37418201192379281338940069018979628135114365155191471076607513460261653688104.0,
              9462101489645363605520336119798650853453721944728581706448929775255972633222.0) in p
    ensures (12554203470773361527671578846415332832252836138854485564107,
             46516069351215928195723824531537446578796494241378432717070545182826119238584.0,
             2593572258169826836315182778159545680380166261027146287436179586520916660317.0) in p
  {
    Travel(p, c, base, 57896044618658097711785492504343953926634992332820282019728792003956564819949.0,
      37095705934669439343138083508754565189542113879843219016388785533085940283555.0,
      196159429230833773869868419475239575503950564669601336936,
      37418201192379281338940069018979628135114365155191471076607513460261653688104.0,
      9462101489645363605520336119798650853453721944728581706448929775255972633222.0,
      Plus(3, 46896733464454938657123544595386787789046198280132665686241321779790909858396.0,
          8324843778533443976490377120369201138301417226297555316741202210403726505172.0,
          48225605231701453106823918160491809341169977847209719186338761785639688200030.0,
          30288425779799683707918205956190588053803212843770298177904220309486244324014.0,
      Double(18485897695379219479251896618958576321301971785790935937486305432984567540853.0,
          5135115013356098684513319122605950125998461865111178353048299996305560522489.0,
      Double(16339528236496691939590721682649823247685028605055816977317060602486908857975.0,
          46912073065785929873180278986697487381563322510766422184469136375330933898906.0,
      Double(9422300342174524535148235573337221172757009586604872706425046381849786434397.0,
          53901441408313695849221648591935008568638912998192699214422862715959583962048.0,
      Double(16879575407509875052819700962168620909105959122262386361221153440465274180216.0,
          24747809364089190186701547183892587712365775184126271556859619859227414881320.0,
      Double(46026074311858967891584225989859207324254356980960209293520616332989483750610.0,
          33428750842278671175198514881572216604889966066689493610338907807159129219842.0,
      Double(3442831090295431163471155909173128597388065027667513690861983273245232868190.0,
          50965070673687116562049062937752002428385152990593326329789086146524943260159.0,
      Plus(11, 9451145793506787353375160377761530931587019091193333050860601958827395183563.0,
          20609402718286069808115703540855311742885093522056241285814584245966805874451.0,
          46516069351215928195723824531537446578796494241378432717070545182826119238584.0,
          2593572258169826836315182778159545680380166261027146287436179586520916660317.0,
      Stop)))))))));
  }

  lemma Stretch27(p: iset<(nat, real, real)>, c: Params, base: Point)
    requires Multiples(p, c, base) && Windows(p)
    requires (12554203470773361527671578846415332832252836138854485564107,
              46516069351215928195723824531537446578796494241378432717070545182826119238584.0,
              2593572258169826836315182778159545680380166261027146287436179586520916660317.0) in p
    ensures (3213876088517980551083924184682325205056726051546748304411392,
             23877843056412536071019375390496122768870558643771990970738714985765776419495.0,
             5702558289974207638362312605612023300593046957331510188453765235506409339692.0) in p
  {
    Travel(p, c, base, 57896044618658097711785492504343953926634992332820282019728792003956564819949.0,
      37095705934669439343138083508754565189542113879843219016388785533085940283555.0,
      12554203470773361527671578846415332832252836138854485564107,
      46516069351215928195723824531537446578796494241378432717070545182826119238584.0,
      2593572258169826836315182778159545680380166261027146287436179586520916660317.0,
      Double(32080808650729089712689836685165055626969319743689461596394593581647775563400.0,
          22322086262095604931589943350594634795260992548807119827695177526400995207186.0,
      Double(50904227614069973077619089724579555230659690712761492275383683064085126711148.0,
          24337072882872450992312182431122328840252124559719762743561524975961913237673.0,
      Double(34282795379400204901608762835670460043884582036916316514833081028176241702263.0,
          24497205706531260742345875906375877421980725255924459479322111501730016531675.0,
      Double(45207237250579875287010383350935072580776376899334672728075445674857248128957.0,
          39496403936422486459992131965206754953856236350836269560288891189196379720652.0,
      Double(9892520292109483162572564166578499435656583822902843799552226239812497413752.0,
          9008749611818964087347399449852483827934081256811672802427903721465208423428.0,
      Double(26450955390802645953664691021712693689080146882962175223139059409733634075108.0,
          7029650407934620676104484191732264441212876711085723728871113250616960456461.0,
      Double(53225446781400123981637113255338407782598344362863930321378839546324471726739.0,
          27503260717915990209811022232029524814432321788172091784122867413129178028382.0,
      Double(23877843056412536071019375390496122768870558643771990970738714985765776419495.0,
          5702558289974207638362312605612023300593046957331510188453765235506409339692.0,
      Stop)))))))));
  }

  lemma Stretch28(p: iset<(nat, real, real)>, c: Params, base: Point)
    requires Multiples(p, c, base) && Windows(p)
    requires (3213876088517980551083924184682325205056726051546748304411392,
              23877843056412536071019375390496122768870558643771990970738714985765776419495.0,
              5702558289974207638362312605612023300593046957331510188453765235506409339692.0) in p
    ensures (205688069665150755269371147819668813123630467298991891482329235,
             27691254005517608749097760316010025698746731598567634159107660816925038401567.0,
             48096188549525518152463405152899299260784975857470836686159698307190462908230.0) in p
  {
    Travel(p, c, base, 57896044618658097711785492504343953926634992332820282019728792003956564819949.0,
      37095705934669439343138083508754565189542113879843219016388785533085940283555.0,
      3213876088517980551083924184682325205056726051546748304411392,
      23877843056412536071019375390496122768870558643771990970738714985765776419495.0,
      5702558289974207638362312605612023300593046957331510188453765235506409339692.0,
      Double(477494527783123619516516591636604285734754962643165047801256615634498256973.0,
          7880673205434932787608900099588797856015733928663345738594919704988568676115.0,
      Double(30554929155801466755870712721706923073814011158135795353973936484773034695124.0,
          48640857644068268021839661610462569623162387163653812794059081825380142901392.0,
      Plus(9, 24193060302538010417230488029838514081720802923509845138863968807030823940444.0,
          57551756252899625001155759838357770487605224608455116862194664796369308545472.0,
          6007178557758863974497699739583902112067564387995961943234209455561371622117.0,
          48542331631091881365046212303379963747331365514249702488391522452460280112193.0,
      Double(30379295610005895885873551476443218142662634496355608369107386881925725826212.0,
          15711646161003209074385637007322689994056268571472675329254925485257620334900.0,
      Double(19618558156598118238544061018918908007199299033605490404590045955165031735621.0,
          55108462981749255908326986482108205328185594408017535509722063598025571702263.0,
      Double(1772049106821383432228774107145018979097305770153729527744653108524867992021.0,
          28504177405642424407412692300342345308069558964449570503349411535145208144323.0,
      Double(6447273306185689973804156172013611019249590984403241255287964212995066958759.0,
          49170740074785096571802719100865842196948850249765938173543657437762434635491.0,
      Plus(3, 46896733464454938657123544595386787789046198280132665686241321779790909858396.0,
          8324843778533443976490377120369201138301417226297555316741202210403726505172.0,
          27691254005517608749097760316010025698746731598567634159107660816925038401567.0,
          48096188549525518152463405152899299260784975857470836686159698307190462908230.0,
      Stop)))))))));
  }

  lemma Stretch29(p: iset<(nat, real, real)>, c: Params, base: Point)
    requires Multiples(p, c, base) && Windows(p)
    requires (205688069665150755269371147819668813123630467298991891482329235,
              27691254005517608749097760316010025698746731598567634159107660816925038401567.0,
              48096188549525518152463405152899299260784975857470836686159698307190462908230.0) in p
    ensures (26328072917139296674479506920917608079824699814270962109738142092,
             39203128155213677977345552687042741019723081864488185449160336017169539406297.0,
             53429556324878822811492669075039719846484716734628412067323585715668216287328.0) in p
  {
    Travel(p, c, base, 57896044618658097711785492504343953926634992332820282019728792003956564819949.0,
      37095705934669439343138083508754565189542113879843219016388785533085940283555.0,
      205688069665150755269371147819668813123630467298991891482329235,
      27691254005517608749097760316010025698746731598567634159107660816925038401567.0,
      48096188549525518152463405152899299260784975857470836686159698307190462908230.0,
      Double(4183424385098056479091527886468513445986396722568748155859335171152264882143.0,
          56859640691828592856089311954044441851848874316674061461239559209907989611052.0,
      Double(16543882880562123313899933023136451188033879104484481943921987163200044858969.0,
          26240645358455929895830302924190089779128465020963339268628074434922973607409.0,
      Double(48354901946900536552788200233915163657251902760056735011531930345400365880798.0,
          10379905066273012143075641691220052577901014669586258503183312161873057363892.0,
      Double(34817962774408924004609728842069097757243237204805353665363852609461556030501.0,
          34480212789599307767426641486036494500413052572798616032060881553362380660124.0,
      Double(36440353945401994985729729292418940010416578104435320180938897113445121531179.0,
          23235369529409626679180892393474589284205257473414343595773545632524865887978.0,
      Plus(3, 46896733464454938657123544595386787789046198280132665686241321779790909858396.0,
          8324843778533443976490377120369201138301417226297555316741202210403726505172.0,
          25850291702385039089705815863301593243824270257295058013194416816645428824643.0,
          52862340791569726939521175492245091512308466285024913160457364284197473719333.0,
      Double(47668506025256424057880501778284614458459873968470420885894048734073685034598.0,
          22777209261683400770356490794144172479419291288539475263999903657459202638785.0,
      Double(39203128155213677977345552687042741019723081864488185449160336017169539406297.0,
          53429556324878822811492669075039719846484716734628412067323585715668216287328.0,
      Stop)))))))));
  }

  lemma Stretch30(p: iset<(nat, real, real)>, c: Params, base: Point)
    requires Multiples(p, c, base) && Windows(p)
    requires (26328072917139296674479506920917608079824699814270962109738142092,
              39203128155213677977345552687042741019723081864488185449160336017169539406297.0,
              53429556324878822811492669075039719846484716734628412067323585715668216287328.0) in p
    ensures (3369993333393829974333376885877453834217561576226683150046482187828,
             33683050213653020648278182468628761847364229033008629272528878908605765257871.0,
             37331029606741395365081079808422202610273205539470024307491581876433078389304.0) in p
  {
    Travel(p, c, base, 57896044618658097711785492504343953926634992332820282019728792003956564819949.0,
      37095705934669439343138083508754565189542113879843219016388785533085940283555.0,
      26328072917139296674479506920917608079824699814270962109738142092,
      39203128155213677977345552687042741019723081864488185449160336017169539406297.0,
      53429556324878822811492669075039719846484716734628412067323585715668216287328.0,
      Double(17179928634608776335855279116398590624439681128104293081511127752604250091313.0,
          2065434119168113416192914070849982498875745002896447428818405040074261326135.0,
      Double(41970059443255629436746040121147474181782205244688557244624197442527986126946.0,
          2749566447724481074810875257022618188845693891279486039555405916380591399505.0,
      Double(51631826664534417655903866303930759800093505199411313296489003608122523260948.0,
          46890297540680119124746395621728795533619789173993199175165488674231132008548.0,
      Double(21032730277673089293656525714833688208596055640774312421930545400639937737524.0,
          40977166396190562089951577438585397689115876859227767321226003613215904014884.0,
      Double(54998318162343708792872430732560813860849182611066983828958215280317244546638.0,
          51017440088020260411173773812412085763010857173773109309079267117197798773703.0,
      Plus(13, 7442235066513780790779899786332475485840754593728627195931759107337804079085.0,
          8529785864514984411577036536286432879603480171865651918962709025066066124672.0,
          57291545147455937577630001586804989029099866304158534730175833414665057309549.0,
          52947328827721870730609407849680071456032189476974766600300213089895134876974.0,
      Double(46563948444541997288735240497800228441980342344995145248860956090451607482341.0,
          10029233439667061374595826967338523812887179514540457251339864559030767171290.0,
      Double(33683050213653020648278182468628761847364229033008629272528878908605765257871.0,
          37331029606741395365081079808422202610273205539470024307491581876433078389304.0,
      Stop)))))))));
  }

  lemma Stretch31(p: iset<(nat, real, real)>, c: Params, base: Point)
    requires Multiples(p, c, base) && Windows(p)
    requires (3369993333393829974333376885877453834217561576226683150046482187828,
              33683050213653020648278182468628761847364229033008629272528878908605765257871.0,
              37331029606741395365081079808422202610273205539470024307491581876433078389304.0) in p
    ensures (431359146674410236714672241392314090779847881757015443205949720042072,
             3448980877501875185336162547782561574917083261113516750168404875637597959392.0,
             233890855124817491492297507853613109600261887166878007844886976303020949651.0) in p
  {
    Travel(p, c, base, 57896044618658097711785492504343953926634992332820282019728792003956564819949.0,
      37095705934669439343138083508754565189542113879843219016388785533085940283555.0,
      3369993333393829974333376885877453834217561576226683150046482187828,
      33683050213653020648278182468628761847364229033008629272528878908605765257871.0,
      37331029606741395365081079808422202610273205539470024307491581876433078389304.0,
      Double(1290143439815768707560230374421511508363318719548980579159130470153901944962.0,
          29925096225485849262161601611834714714444292527669886531649988065020832755901.0,
      Double(25616057023740958944366280996494229766556911364376162691075455330071688345773.0,
          52941035379205027098379755936564078996249118196927594449000000181867832830209.0,
      Double(10388566677335406010802776720707556193066541591834399597993902546873536410949.0,
          20758108928825349097056527418838141868439404994312669301275308061278545737020.0,
      Double(50152055296302230567043993459472684457907470295489082362125769848049165980283.0,
          31596876845230282309260956389190599281327924416395901536752600073472959318527.0,
      Plus(11, 9451145793506787353375160377761530931587019091193333050860601958827395183563.0,
          20609402718286069808115703540855311742885093522056241285814584245966805874451.0,
          42776685266588708067526227503599860784731445751316951848994669870455819838933.0,
          3834698150254463617327759397064941500725928903016397929928140544581549714898.0,
      Double(47286174134070855786543341154707284721224923384334543339918546056786543845161.0,
          1440202793720337178644104369878532272314368088435659799191261277769424010232.0,
      Double(55587108656717662654124490016756886633311823975258374817765354501728813816996.0,
          14271885421874841140703556813928272935593092953831750923110771725504073689907.0,
      Double(3448980877501875185336162547782561574917083261113516750168404875637597959392.0,
          233890855124817491492297507853613109600261887166878007844886976303020949651.0,
      Stop)))))))));
  }

  lemma Stretch32(p: iset<(nat, real, real)>, c: Params, base: Point)
    requires Multiples(p, c, base) && Windows(p)
    requires (431359146674410236714672241392314090779847881757015443205949720042072,
              3448980877501875185336162547782561574917083261113516750168404875637597959392.0,
              233890855124817491492297507853613109600261887166878007844886976303020949651.0) in p
    ensures (27606985387162255149739023449108101809910264432448988365180782082692924,
             48817293213565226808069124748884300379850778142562498499897636027429603761404.0,
             30367277722626747756509043029546041452780372217781070443500528112750390987582.0) in p
  {
    Travel(p, c, base, 57896044618658097711785492504343953926634992332820282019728792003956564819949.0,
      37095705934669439343138083508754565189542113879843219016388785533085940283555.0,
      431359146674410236714672241392314090779847881757015443205949720042072,
      3448980877501875185336162547782561574917083261113516750168404875637597959392.0,
      233890855124817491492297507853613109600261887166878007844886976303020949651.0,
      Double(41943102304801976089676975215922855578959281497187679180625553507770228460819.0,
          9581188126539492176603470794186455136864482035126925000517312844946281150964.0,
      Plus(9, 24193060302538010417230488029838514081720802923509845138863968807030823940444.0,
          57551756252899625001155759838357770487605224608455116862194664796369308545472.0,
          10780657088011873692095173863374486613782177310246218511429659787704742976020.0,
          9960583645259155079940220988912608018877849146799766322875488219803080217478.0,
      Double(19520993289593675301791621986498411775641279234603098012999461043033004474604.0,
          49399524639183804229508180840786175836824236055816958990961529669334933379373.0,
      Double(7850838395568220364765181549512850628970333693905023252613995883658569091389.0,
          43564685484321622428812770447243861022907201212499715308250597992879863136233.0,
      Double(47900727112244911120878279087361680004974624404066091054552348586470543107913.0,
          1773900404301047746785706192686532947799863235076619065731232242459838217174.0,
      Plus(7, 9199134265559022971505535402808359556995554859516252602543778295037484220679.0,
          22512087849695599276028560866629687720820254811233262850576678203618951717560.0,
          43726857591729232589671160113458785147323062147537873899967101955184611880434.0,
          14654457685681891066229743770206199244034052426290092959431900339011514259484.0,
      Double(45239298867352071971455422187424767329835932237310608488394325826843554540902.0,
          24032635060160304593507287691654709661832266283965059758020181900559423689442.0,
      Double(48817293213565226808069124748884300379850778142562498499897636027429603761404.0,
          30367277722626747756509043029546041452780372217781070443500528112750390987582.0,
      Stop)))))))));
  }

  lemma Stretch33(p: iset<(nat, real, real)>, c: Params, base: Point)
    requires Multiples(p, c, base) && Windows(p)
    requires (27606985387162255149739023449108101809910264432448988365180782082692924,
              48817293213565226808069124748884300379850778142562498499897636027429603761404.0,
              30367277722626747756509043029546041452780372217781070443500528112750390987582.0) in p
    ensures (1766847064778384329583297500742918515834256923676735255371570053292347229,
             15607491374204947381801637572098982197401030839946607366513930992352658701411.0,
             26091167286181408863558197301785676569014798891055641832243596720412745066288.0) in p
  {
    Travel(p, c, base, 57896044618658097711785492504343953926634992332820282019728792003956564819949.0,
      37095705934669439343138083508754565189542113879843219016388785533085940283555.0,
      27606985387162255149739023449108101809910264432448988365180782082692924,
      48817293213565226808069124748884300379850778142562498499897636027429603761404.0,
      30367277722626747756509043029546041452780372217781070443500528112750390987582.0,
      Double(20655917086413571936935806692611344702081497356599388468046962755533488840789.0,
          6592131962897455290595212257654663248293114554766892580416325897548065407588.0,
      Double(21181961065642720649237680342522776119064306879115667481289370783389198326858.0,
          55148780372846618593138179225679649332000561353139668672368862055577938996217.0,
      Double(7838917936690270558850158736595509595130118105887909690489069926219091323497.0,
          49071002348027894468842491372766927441030987758266283324630539857141827001465.0,
      Plus(11, 9451145793506787353375160377761530931587019091193333050860601958827395183563.0,
          20609402718286069808115703540855311742885093522056241285814584245966805874451.0,
          1621326940781623262197234775215568553749203287001246320490367674196489544318.0,
          32080098788136790842617678490038203060280651919491355901586274469046175576345.0,
      Double(34384238182073006178069933254488639127672314385114214494712529299097683811614.0,
          34251516519615103235380146423070665924645835872818708078242511792528492253171.0,
      Double(47375816158306519408730419710840592617755497719071439780589853141742221536859.0,
          49425797278934522933754121814763710988019107652687544514684197974107318267868.0,
      Double(5695040151676519454118890364285037432803835173193493170980393739007198230480.0,
          6673769640724213741509845150606646446990551862631841298935351822023689876601.0,
      Plus(5, 33467004535436536005251147249499675200073690106659565782908757308821616914995.0,
          43097193783671926753355113395909008640284023746042808659097434958891230611693.0,
          15607491374204947381801637572098982197401030839946607366513930992352658701411.0,
          26091167286181408863558197301785676569014798891055641832243596720412745066288.0,
      Stop)))))))));
  }

  lemma Stretch34(p: iset<(nat, real, real)>, c: Params, base: Point)
    requires Multiples(p, c, base) && Windows(p)
    requires (1766847064778384329583297500742918515834256923676735255371570053292347229,
              15607491374204947381801637572098982197401030839946607366513930992352658701411.0,
              26091167286181408863558197301785676569014798891055641832243596720412745066288.0) in p
    ensures (226156424291633194186662080095093570026784886230622112687560966821420445342,
             40723064091278394470160226633226033255871972153633611957575699319485813703775.0,
             52428304004418591725394878486448937626966356733106605391415261096087565531150.0) in p
  {
    Travel(p, c, base, 57896044618658097711785492504343953926634992332820282019728792003956564819949.0,
      37095705934669439343138083508754565189542113879843219016388785533085940283555.0,
      1766847064778384329583297500742918515834256923676735255371570053292347229,
      15607491374204947381801637572098982197401030839946607366513930992352658701411.0,
      26091167286181408863558197301785676569014798891055641832243596720412745066288.0,
      Double(8339407891475578256109406314033389688077825897931079265545181224721380128309.0,
          14411104097030611677840457467204474875789736621984749864130968427849626073984.0,
      Double(39264564646777584416147252555802575144227215801683492967450929427167060917054.0,
          40065731243285388296861411513965264594756594454614871647746646604496551058896.0,
      Double(44880989264414195861500069738921222519456978269966649804517089717879672848313.0,
          1546339169748125145722901462106044967887532546555657227775867959589051460664.0,
      Double(51584810687740493481287179653067584568365798520264186122321433974536435154927.0,
          56724794955618181828252633033296615061196815381179411929783226000689943053268.0,
      Double(22737358774264150068910133551343369621013912404841050911549666938857467492192.0,
          52016983720084630878712537869514148754752211829651535881972331406753070292715.0,
      Double(27120833488310994439889980197104400172178527749160928700968053608121467743066.0,
          31038333698789966442903013140975248131782829936950124280464727148179775478762.0,
      Plus(15, 35771902585589234259498423420223840099331465042459337605611172842168536632769.0,
          8502034780705657720897159939055122322178084209392286764802307224484658961631.0,
          29480407674484881991165473992333333532656185409511787335224061812275946374726.0,
          8047385049404066477546574034471471023683495617186820188619048946815956201004.0,
      Double(40723064091278394470160226633226033255871972153633611957575699319485813703775.0,
          52428304004418591725394878486448937626966356733106605391415261096087565531150.0,
      Stop)))))))));
  }

  lemma Stretch35(p: iset<(nat, real, real)>, c: Params, base: Point)
    requires Multiples(p, c, base) && Windows(p)
    requires (226156424291633194186662080095093570026784886230622112687560966821420445342,
              40723064091278394470160226633226033255871972153633611957575699319485813703775.0,
              52428304004418591725394878486448937626966356733106605391415261096087565531150.0) in p
    ensures (7237005577332262213973186563042994240857116359379907606001950938285454250989, 0.0, 1.0) in p
  {
    Travel(p, c, base, 57896044618658097711785492504343953926634992332820282019728792003956564819949.0,
      37095705934669439343138083508754565189542113879843219016388785533085940283555.0,
      226156424291633194186662080095093570026784886230622112687560966821420445342,
      40723064091278394470160226633226033255871972153633611957575699319485813703775.0,
      52428304004418591725394878486448937626966356733106605391415261096087565531150.0,
      Double(52851355207452634148642637553965737652388188865803738731382307697499853231282.0,
          35217284179628111021737579224229032764007293707849130939343320581662248400605.0,
      Double(3271171171245221946428520235560643158502120673032103456735965639042350520472.0,
          50657462203531146410025232245509911198078260080721799421828583818110545216042.0,
      Double(52156501007050017544789164914411169264117197472192352984645599321875697774515.0,
          50520950533169009521749641331619205166506110965531081728627762594217371265205.0,
      Plus(11, 9451145793506787353375160377761530931587019091193333050860601958827395183563.0,
          20609402718286069808115703540855311742885093522056241285814584245966805874451.0,
          51872155851566556063538290990191317148460249988409666650861039146474861596918.0,
          11802273043629714068065006270029927896359548511386885817262733898970000288062.0,
      Double(21899774947921560910852297759271069639382909542664740987399982237893057430496.0,
          50991681853204441562074798379791702070647292781544839766488688163191875246508.0,
      Double(42783823269122696939284341094755422415180979639778424813682678720006717057747.0,
          46316835694926478169428394003475163141307993866256225615783033603165251855960.0,
      Plus(1, 15112221349535400772501151409588531511454012693041857206046113283949847762202.0,
          46316835694926478169428394003475163141307993866256225615783033603165251855960.0,
          0.0,
          1.0,
      Stop))))))));
  }

  /** L times the base point is the identity. */
  lemma BaseOrder(c: Params, base: Point)
    requires c.Good() && c.OnCurve(base)
    requires c.q == 57896044618658097711785492504343953926634992332820282019728792003956564819949
    requires c.d == 37095705934669439343138083508754565189542113879843219016388785533085940283555
    requires base.x == 15112221349535400772501151409588531511454012693041857206046113283949847762202
    requires base.y == 46316835694926478169428394003475163141307993866256225615783033603165251855960
    ensures c.Multiple(base, 7237005577332262213973186563042994240857116359379907606001950938285454250989) == IDENTITY
  {
    var p := AllMultiples(c, base, 57896044618658097711785492504343953926634992332820282019728792003956564819949.0,
      37095705934669439343138083508754565189542113879843219016388785533085940283555.0,
      15112221349535400772501151409588531511454012693041857206046113283949847762202.0,
      46316835694926478169428394003475163141307993866256225615783033603165251855960.0);
    WindowsReached(p, c, base);
    Stretch1(p, c, base);
    Stretch2(p, c, base);
    Stretch3(p, c, base);
    Stretch4(p, c, base);
    Stretch5(p, c, base);
    Stretch6(p, c, base);
    Stretch7(p, c, base);
    Stretch8(p, c, base);
    Stretch9(p, c, base);
    Stretch10(p, c, base);
    Stretch11(p, c, base);
    Stretch12(p, c, base);
    Stretch13(p, c, base);
    Stretch14(p, c, base);
    Stretch15(p, c, base);
    Stretch16(p, c, base);
    Stretch17(p, c, base);
    Stretch18(p, c, base);
    Stretch19(p, c, base);
    Stretch20(p, c, base);
    Stretch21(p, c, base);
    Stretch22(p, c, base);
    Stretch23(p, c, base);
    Stretch24(p, c, base);
    Stretch25(p, c, base);
    Stretch26(p, c, base);
    Stretch27(p, c, base);
    Stretch28(p, c, base);
    Stretch29(p, c, base);
    Stretch30(p, c, base);
    Stretch31(p, c, base);
    Stretch32(p, c, base);
    Stretch33(p, c, base);
    Stretch34(p, c, base);
    Stretch35(p, c, base);
    assert At(7237005577332262213973186563042994240857116359379907606001950938285454250989, 0.0, 1.0);
  }
}
